# D3 Auth, modelled and proved

D3 Auth is a self-hosted OpenID Connect provider. Most of what it promises is kept by small
protocols over a few tables: keys that move through a rotation, tokens that must not outlive the
access behind them, a configuration file that is planned and then applied, logout messages that are
retried, approvals that two requests may answer at once, accounts with a grace period, pages read
from a log that grows. This project models those protocols in Dafny and proves what they keep.

Where the source changes rows in place, there is a class whose methods are proved equal to a step
function; what the step guarantees over whole runs is proved about that function.

## What is modelled

**Signing keys** (`SigningKeys`, `KeyStores`, `KeyRotation`, `KeyLifecycle`). The table and its calls, and runs of
generate, promote, retire, boot, fetch, sign and the clock. The main result is exact: every unforced
run is safe, meaning every live token verifies against every key set a consumer may still hold, if
and only if the two-hour overlap covers the consumers' cache and covers the restart delay plus a
token's life. With the hour of cache the key-set endpoint allows and hour-long tokens, the process
has exactly one hour to restart. The console's restart flag is never raised without need, and is
silent exactly when the key that is now current was already waiting at the last boot. `KeyLifecycle`
follows one key through any run: when it comes into office and when it leaves the key set, exactly,
whatever the other algorithm is doing.

**Access and tokens** (`Access`, `AccessChanges`, `AccessStores`, `RoleOrder`). Access is the union of direct and
group grants on an enabled app. Over every run of minting, issuing, grant, group and app changes, no
provider grant family outlives the access of its pair. A group change takes exactly the families it
left without access, changes nobody outside the people and apps it reports, and notifies all of
those. Only revoking a direct grant takes tokens from somebody who keeps access, and it does so
exactly when a group still lets them in. `AccessChanges` says for every operation who has which access
afterwards, by the tables before it alone, and that the console's own client is open to everybody in
every run. Who may sign in at all (`findAccount`) is not part of this component.

**Export, plan and import** (`AdminState`, `ImportIdempotence`, `ImportPlan`, `ImportKinds`,
`ImportLosses`, `ExportRoundTrip`, `StateStores`). Applying a file twice is applying it once, for every file; the plan tells exactly
which rows appear, which kinds people end up with and which grants and members are skipped; no file
makes an owner or an unproved admin, and whom the plan lists no problem for gets the kind the file asks; export, import into an empty instance and export again gives the
same but for people's kinds and statuses, in whatever order the rows of either export come back. The comment at apps/server/src/admin/state.ts:291-296
says an import removes nothing; the code replaces redirect URIs, the roles of every grant it names
and the members of every group it names. `ImportLosses` states, for each stored URI, member, role
and logout address, exactly when an import takes it, that nothing else goes, and an import that
takes one of each. The plan's promise to list whatever cannot be done (state.ts:89-90) does not cover
a role that a grant lists and no app declares: it is dropped unlisted, exactly then.

**Back-channel logout** (`LogoutTokens`, `LogoutHandlers`, `LogoutReceivers`, `LogoutKeySets`,
`LogoutSenders`, `LogoutDelivery`). What each receiving library accepts and where the two differ;
the bounded memory of `jti`s, with the exact bound under which `endSession` runs at most once per
`jti`, in runs that may also hold any number of forged posts; the Python key cache and its rate
limit; the sender's retries; and the two ends together, from the tokens the sender sends, through
the time they take, to the receiver's checks: one notification ends a session once per attempt that
reached the app while its token was good and young enough, up to three times, because each attempt carries a
new `jti`. The handlers' comments (packages/auth-client/src/logout-token.ts:103-108)
say a retry is recognised by its `jti`; with this sender it is not, and `LostReply` shows the run.

**Approvals** (`Approvals`, `ApprovalChoices`, `ApprovalStores`). An answer reads and writes in two
statements; under every interleaving of answers, polls and consumptions one answer decides.

**Login** (`LoginMachine`, `InteractionFlows`, `LoginCompletions`, `Interactions`). The pure machine and the routes that
drive it, with the passkey challenge and the approval rows an interaction keeps. Every sign-in in every
run of requests is traced back to the requests that earned it, and its second factor to the account it
was asked of; and the other way round, which requests sign somebody in is stated exactly, with a run for
every way in. A factor is the signed-in account's own exactly when it was asked at that account's factor
step. The code ensures this for codes, but for passkeys only if the challenge was begun at that step
(apps/server/src/security/webauthn.ts:163 compares owners only then), and for approvals only if the
approval was started there, since challenge and approvals outlive the flow; both conditions are proved
exact, with a run for each that does not meet it. The comment at
apps/server/src/interaction/machine.ts:25 says an armed recovery lets the password alone sign in;
the machine still asks for a factor if the account holds one, and only records `recovery` in `amr`
(`RecoveryExcusesNobody`). The comment at apps/server/src/interaction/routes.ts:422 says the email
step answers alike whether or not the account exists; that holds at the first step, and
`IdentifyAnswersAlike` says that it holds exactly there.

**Accounts** (`Accounts`, `AccountImports`, `AccountStores`). Deletion on request, the purge, and the
people actions, with each handler's read and write apart. No run leaves the instance without an active owner, and
whoever is purged asked for it seven days before and was not reactivated since. Accepting a
re-enrolment link makes an account active without cancelling its deletion; what follows from that is
stated too.

**Manifest and audit trail** (`Manifests`, `ManifestAccess`, `AuditPaging`). After an apply the diff
is empty, and applying is a no-op exactly under a stated condition that an empty diff alone does not
give; two apps with an empty diff and an apply that changes them are shown. What the diff calls
blocking is what the access component refuses. Paging through a growing log returns exactly the rows
there were at the first page.

## How to read it

Times in `SigningKeys`, `KeyRotation`, `Approvals`, `Accounts` and `LogoutSenders` are milliseconds;
the receivers work in seconds. Tables are maps from their keys, so a query without an ordering may
answer in any order. What the environment decides (the network, the clock, random ids, a password or
signature check) is a parameter. A `Contents()` or a field compared with a function of its `old`
value is a method's whole new state. `dafny verify dfyconfig.toml` checks the project.

## Model

| member | source | states |
|---|---|---|
| KeyStores.KeyStore.FindFirst | apps/server/src/oidc/keys.ts:146 | the row a query on algorithm and status finds, when there is at most one, whichever way the table is walked |
| KeyStores.KeyStore.GenerateNext | apps/server/src/oidc/keys.ts:114-132 | refused exactly while a key of this algorithm waits, and then unchanged; otherwise one `next` row and one audit event, and the trail still explains every status |
| KeyStores.KeyStore.PromoteNext | apps/server/src/oidc/keys.ts:140-179 | refusals change nothing; otherwise both updates and one event, statuses only forward, table still well formed |
| KeyStores.KeyStore.Retire | apps/server/src/oidc/keys.ts:182-208 | retires exactly the due keys, each with its event in order; refused when none is retiring or none is due |
| KeyStores.KeyStore.RetireEach | apps/server/src/oidc/keys.ts:201-206 | the loop over the due keys ends with all of them retired and one event each |
| KeyStores.KeyStore.LoadSigningKeys | apps/server/src/oidc/keys.ts:214-238 | after boot every algorithm has a current key, no row was lost, and each algorithm is signed with its current key |
| KeyStores.KeyStore.EnsureCurrent | apps/server/src/oidc/keys.ts:218-234 | one bootstrap turn mints only where no current key exists |
| KeyStores.KeyStore.DecryptPublishedKeys | apps/server/src/oidc/keys.ts:245-254 | every published key once, current before next before retiring |
| SigningKeys.GenerateKeeps | apps/server/src/oidc/keys.ts:114-132 | generating keeps at most one next and one current key per algorithm and moves no status back |
| SigningKeys.PromoteMoves | apps/server/src/oidc/keys.ts:157-167 | a promotion moves the next key of its algorithm up and the current one down, and nothing else |
| SigningKeys.PromoteKeeps | apps/server/src/oidc/keys.ts:140-179 | promoting keeps the table's invariant, forced or not, and leaves a current key where there was one |
| SigningKeys.RetireKeeps | apps/server/src/oidc/keys.ts:182-208 | retiring keeps the invariant and never takes the current key |
| SigningKeys.EnsuredKeeps | apps/server/src/oidc/keys.ts:218-234 | one bootstrap turn gives its algorithm a current key and touches no existing row |
| SigningKeys.BootstrapKeeps | apps/server/src/oidc/keys.ts:214-235 | after bootstrap every algorithm has a current key, existing rows are untouched, and a complete table is unchanged |
| SigningKeys.BootstrapIsIdempotent | apps/server/src/oidc/keys.ts:214-235 | bootstrapping again changes nothing, whatever it would have minted |
| SigningKeys.SignerIsFirst | apps/server/src/oidc/keys.ts:210-213 | the signing key is the first loaded key of its algorithm |
| SigningKeys.SignsWithCurrent | apps/server/src/oidc/keys.ts:245-254 | in every order the rows may come back in, the process signs with the current key |
| SigningKeys.ReadyMeansAllowed | apps/server/src/oidc/keys.ts:86-102 | the `ready` flag is true exactly when the unforced next step would be accepted |
| SigningKeys.PromoteStatuses | apps/server/src/oidc/keys.ts:167-174 | one promotion event says what both row updates did |
| SigningKeys.GenerateExactly | apps/server/src/oidc/keys.ts:114-132 | a new key is refused exactly while one of its own algorithm waits; otherwise it is the one row added |
| SigningKeys.PromoteExactly | apps/server/src/oidc/keys.ts:140-155 | refused exactly without a waiting key, or unforced before its overlap is over |
| SigningKeys.RetireExactly | apps/server/src/oidc/keys.ts:182-208 | key by key, which retirements are refused and why, forced or not, and what one that is not changes |
| SigningKeys.LoadedInThreeParts | apps/server/src/oidc/keys.ts:245-254 | every published key is loaded, the current ones before those waiting before those retiring |
| SigningKeys.ReadyAtIsTheMoment | apps/server/src/oidc/keys.ts:86-102 | the time shown is the first at which the unforced next step is allowed |
| KeyLifecycle.WaitsUnchanged | apps/server/src/oidc/keys.ts:114-179 | in every run a waiting key stays as it is until its own algorithm is promoted |
| KeyLifecycle.PromotesExactly | apps/server/src/oidc/keys.ts:140-179 | in every reachable state a promotion makes the waiting key current exactly when forced or ready |
| KeyLifecycle.WaitingKeyComesIntoOffice | apps/server/src/oidc/keys.ts:114-179 | a key generated while none of its algorithm waits is current after that algorithm's next promotion exactly if that is forced or the overlap is over, whatever the other algorithm does |
| KeyLifecycle.ReplacedKeyLeaves | apps/server/src/oidc/keys.ts:157-208 | the key a promotion replaces stays published until a retirement asks for it, and leaves then exactly if forced or the overlap is over |
| KeyRotation.StepIsSane | apps/server/src/oidc/keys.ts:114-254 | every step, forced or not, keeps the invariant and only moves forward |
| KeyRotation.ReachableIsSane | apps/server/src/oidc/keys.ts:114-254 | in every reachable state at most one next and one current key per algorithm, and exactly one current once booted |
| KeyRotation.RunsMoveForward | apps/server/src/oidc/keys.ts:114-254 | over any run keys stay and statuses never move back |
| KeyRotation.OverlapSuffices | apps/server/src/oidc/keys.ts:134-208 | cache within the overlap and restart delay plus life within the overlap make every unforced run safe |
| KeyRotation.LongCacheFails | apps/server/src/oidc/keys-routes.ts:60-63 | a longer consumer cache has an unforced run in which a live token does not verify |
| KeyRotation.LateRestartFails | apps/server/src/oidc/keys.ts:182-208 | a restart delay and life that together exceed the overlap have such a run: the old key is retired before the restart's last token dies |
| KeyRotation.OverlapIsExactlyEnough | apps/server/src/oidc/keys.ts:36-37 | all unforced runs are safe if and only if the overlap covers the cache, and the restart delay with the token life |
| KeyRotation.RestartWithinTheHour | apps/server/src/oidc/keys-routes.ts:60-63 | with an hour of cache and of life, safety holds exactly when the process restarts within an hour |
| KeyRotation.RestartRequiredIsTrue | apps/server/src/oidc/keys-routes.ts:74-78 | the console asks for a restart only when some algorithm is signed with a key that is not current |
| KeyRotation.RestartRequiredIsComplete | apps/server/src/oidc/keys-routes.ts:74-78 | with no boot between generation and promotion it asks exactly then |
| KeyRotation.UnreportedExactlyWhenPreloaded | apps/server/src/oidc/keys.ts:245-254 | after any boot a stale signature goes unreported exactly when the now current key was `next` at that boot |
| KeyRotation.PreloadedRun | apps/server/src/service.ts:349 | generate, restart, promote: a stale signature with no restart asked for |
| AccessStores.AccessStore.EffectiveAccess | apps/server/src/authz/effective-roles.ts:51-81 | access and roles are the union of the direct grant and every group's, none for a disabled app, always for the console's client |
| AccessStores.AccessStore.GroupRows | apps/server/src/authz/effective-roles.ts:58-64 | the role rows of exactly the groups that link the pair, with the app's own sort orders |
| AccessStores.AccessStore.EffectiveRoles | apps/server/src/authz/effective-roles.ts:71-81 | the role list has exactly the roles held, each once, highest sort order first |
| AccessStores.AccessStore.RevokeTokensIfNoAccess | apps/server/src/oidc/revoke-tokens.ts:51-54 | families go only if the pair has no access left |
| AccessStores.AccessStore.OnAccessChanged | apps/server/src/service.ts:263-271 | every reported pair is notified, and exactly the families left without access are destroyed |
| AccessStores.AccessStore.OnPersonChanged | apps/server/src/service.ts:264-270 | the inner loop over apps for one person |
| AccessStores.AccessStore.RemoveGroup | apps/server/src/admin/groups.ts:184-201 | the group's reach is read before it goes; its members' lost families follow |
| AccessStores.AccessStore.SetMembers | apps/server/src/admin/groups.ts:203-229 | afterwards the members are exactly those listed; unknown people are refused, and old and new members are reported |
| AccessStores.AccessStore.SetGroupGrant | apps/server/src/admin/groups.ts:231-261 | replaces the roles of one app for the group, refusing unknown apps and roles |
| AccessStores.AccessStore.RevokeGroupGrant | apps/server/src/admin/groups.ts:263-281 | drops the group's app and what only it allowed; false when there was nothing |
| AccessStores.AccessStore.SetGrant | apps/server/src/authz/grants.ts:147-181 | one pair's direct grant ends with exactly these roles and the app is told |
| AccessStores.AccessStore.RevokeGrant | apps/server/src/authz/grants.ts:183-198 | the direct grant and every family of the pair go, with one notice |
| AccessStores.AccessStore.SetEnabled | apps/server/src/admin/apps.ts:292-307 | disabling deletes every payload row of the client |
| AccessStores.AccessStore.RemoveApp | apps/server/src/admin/apps.ts:309-324 | removing deletes the app, its grants and every payload row of the client |
| AccessStores.AccessStore.GrantAndFinish | apps/server/src/interaction/routes.ts:286-302 | a provider grant is made only for a pair that has access at that moment |
| Access.GroupsSayTheSame | apps/server/src/authz/effective-roles.ts:51-81 | access and roles depend on nothing but the app, the direct grant and the groups that link the pair |
| Access.ChangesStayWhereReported | apps/server/src/admin/groups.ts:184-281 | every pair outside what an operation names or reports keeps exactly its access and roles |
| Access.ChangedPairsAreReported | apps/server/src/admin/groups.ts:184-281 | every pair whose access or roles a group change alters is among the reported, and so notified, pairs |
| Access.UpdateKeepsAccess | apps/server/src/admin/apps.ts:242-271 | a manifest update takes roles, never access |
| Access.GivingKeepsAccess | apps/server/src/authz/grants.ts:147-181 | operations that only give leave everybody the access they had |
| Access.FamilyKeepsAccess | apps/server/src/service.ts:258-283 | a family that survives a step is the same and still has access |
| Access.ArtefactsFollow | apps/server/src/oidc/revoke-tokens.ts:29-34 | no token survives the family it belongs to |
| Access.StepIsSafe | apps/server/src/oidc/revoke-tokens.ts:17-54 | each operation keeps: every live family has access, every artefact a live family of its client |
| Access.TokensNeverOutliveAccess | apps/server/src/service.ts:258-283 | the same over every run |
| Access.GroupChangeTakesExactlyTheLost | apps/server/src/oidc/revoke-tokens.ts:46-54 | after a group change the families left are exactly those whose pair still has access, and so the artefacts |
| Access.UnconfirmedUpdate | apps/server/src/admin/apps.ts:242-255 | changes no direct grant's roles; leaves every group's alone exactly when it is refused or no group holds a dropped role |
| Access.GroupRolesGoUnasked | apps/server/src/admin/apps.ts:93-100 | a group-held role is lost to an update nobody had to confirm |
| Access.OnlyDirectRevocationIsBlunt | apps/server/src/service.ts:278-282 | over all operations, a family goes although its pair keeps access exactly when its direct grant is revoked while a group still lets the person in |
| Access.TokensGoAccessStays | apps/server/src/service.ts:278-282 | a state and a revocation that show it |
| AccessChanges.AccessByGroup | apps/server/src/authz/effective-roles.ts:51-81 | directories that differ in one group give access and roles by what there is without it, and by what it now gives |
| AccessChanges.MembersAreReplaced | apps/server/src/admin/groups.ts:203-212 | after a change of members those listed are in the group and nobody else; its grants and all else are as they were |
| AccessChanges.AccessAfterSetMembers | apps/server/src/admin/groups.ts:203-229 | the pair then has access, and roles, exactly through something else or as one of the people listed |
| AccessChanges.LeftOutKeepExactly | apps/server/src/admin/groups.ts:222-227 | somebody left out keeps their tokens for an app exactly through a direct grant or another group |
| AccessChanges.AccessAfterRemoveGroup | apps/server/src/admin/groups.ts:184-201 | a removed group gives nothing; access and roles are exactly what there is without it |
| AccessChanges.AccessAfterCreateGroup | apps/server/src/admin/groups.ts:149-165 | a new group is empty and lets nobody in; a name in use changes nothing |
| AccessChanges.AccessAfterSetGroupGrant | apps/server/src/admin/groups.ts:231-261 | one app of the group ends with exactly these roles, its members hold them beside the others, its other apps are untouched |
| AccessChanges.AccessAfterRevokeGroupGrant | apps/server/src/admin/groups.ts:263-281 | members keep the app exactly through something else; the group's other apps are untouched |
| AccessChanges.RefusedGroupChanges | apps/server/src/admin/groups.ts:184-281 | an unknown group, person, app or role changes nothing |
| AccessChanges.ReportsExactly | apps/server/src/admin/groups.ts:184-281 | the pairs told of a group change are those the group links before it or after it, and no others |
| AccessChanges.AccessAfterSetGrant | apps/server/src/authz/grants.ts:147-181 | the pair ends with exactly these direct roles beside those of groups, on an enabled app has access, and nothing else changes |
| AccessChanges.AccessAfterRevokeGrant | apps/server/src/authz/grants.ts:183-198 | the pair has afterwards exactly what groups give it, and no other grant changes |
| AccessChanges.AccessAfterSetEnabled | apps/server/src/admin/apps.ts:292-307 | a disabled app lets nobody in; an enabled one exactly whom its grants do |
| AccessChanges.OffAndOn | apps/server/src/admin/apps.ts:292-307 | switched off and on, an app has the access and roles it had, for everybody, and no token |
| AccessChanges.RemovedAppStartsAnew | apps/server/src/admin/apps.ts:309-324 | an app registered again under the id of a removed one starts with nobody let in |
| AccessChanges.RegistersExactly | apps/server/src/admin/apps.ts:203-240 | an id in use is not registered over; a new app changes nothing else |
| AccessChanges.HeldRolesAreDeclared | apps/server/src/admin/apps.ts:242-324 | in every run no grant outlives its app or a role it names, and every role held is declared |
| AccessChanges.RolesAfterUpdate | apps/server/src/admin/apps.ts:242-271 | an update that goes through leaves everybody exactly the roles still declared |
| AccessChanges.IssuesExactly | apps/server/src/oidc/revoke-tokens.ts:29-34 | what is issued belongs to its family and names that family's client |
| AccessChanges.ArtefactsGoExactly | apps/server/src/oidc/revoke-tokens.ts:17-54 | a code or token goes exactly with its family or when its client's app is closed |
| AccessChanges.ClosedAppHasNothing | apps/server/src/admin/apps.ts:292-324 | closing an app leaves no payload row that names it and takes no other |
| AccessChanges.MintsExactly | apps/server/src/interaction/routes.ts:286-302 | a mint with a new id makes a family exactly for a pair with access and no live family to reuse |
| AccessChanges.ConsoleIsOpen | apps/server/src/authz/effective-roles.ts:52 | in every safe state a mint for the console's own client succeeds for anybody, without roles |
| AccessChanges.ConsoleIsSpared | apps/server/src/authz/effective-roles.ts:28-34 | no operation takes a family of the console |
| AccessChanges.ConsoleOverRuns | apps/server/src/authz/effective-roles.ts:28-34 | nor does any run |
| AccessChanges.ConsoleStaysOpen | apps/server/src/authz/effective-roles.ts:52 | in every reachable state anybody can sign in to the console |
| RoleOrder.OrderedKeys | apps/server/src/authz/effective-roles.ts:39-43 | the list has exactly the rows' keys, each once, never a lower sort order before a higher |
| RoleOrder.OrderIsDetermined | apps/server/src/authz/effective-roles.ts:39-43 | with distinct sort orders the list does not depend on the order the rows came in |
| ImportIdempotence.AppsTwice | apps/server/src/admin/state.ts:305-338 | importing the app entries a second time changes no app, repeated entries included |
| ImportIdempotence.PeopleTwice | apps/server/src/admin/state.ts:340-370 | the same for people, with kinds decided anew against the changed state |
| ImportIdempotence.GroupsTwice | apps/server/src/admin/state.ts:372-395 | the same for groups, unknown members and apps included |
| ImportIdempotence.ImportTwice | apps/server/src/admin/state.ts:297-395 | importing any file twice leaves the state of importing it once |
| ImportPlan.CreatesWhatThePlanSays | apps/server/src/admin/state.ts:260-275 | nothing is removed and the rows that appear are exactly those listed as created |
| ImportPlan.ListsEveryNamedRow | apps/server/src/admin/state.ts:260-275 | every row the file names is listed as created or as updated, by whether it is here |
| ImportPlan.UnknownPresetsAreListed | apps/server/src/admin/state.ts:227-233 | exactly the apps built by a preset this version does not know are listed |
| ImportPlan.KindsAreAsPlanned | apps/server/src/admin/state.ts:104-138 | everybody ends with the kind the plan reported, or the one they had |
| ImportPlan.NoPrivilegeRaise | apps/server/src/admin/state.ts:340-355 | owners are unchanged; an admin was one or holds a verified factor; no existing status changes and none is created active |
| ImportKinds.RefusalsExactly | apps/server/src/admin/state.ts:117-134 | each kind problem is listed exactly when an entry asks that kind of such a person: an owner kept, an owner not made, an admin not made for want of a factor |
| ImportKinds.PlannedRefusals | apps/server/src/admin/state.ts:117-134 | the same of the whole plan |
| ImportKinds.GrantedKind | apps/server/src/admin/state.ts:125-135 | somebody who is no owner gets the kind asked by the last entry whose kind they may be |
| ImportKinds.NoGrantedKind | apps/server/src/admin/state.ts:119-134 | without such an entry a person here keeps their kind and a new one is a guest |
| ImportKinds.KindAfterImport | apps/server/src/admin/state.ts:340-355 | both, as the kind everybody has after the import |
| ImportKinds.UnrefusedKindsAreGranted | apps/server/src/admin/state.ts:104-138 | whom the plan lists no kind problem for ends with the kind their last entry asks |
| ImportKinds.AdminByImport | apps/server/src/admin/state.ts:128-135 | a guest here whom the file makes an admin becomes one exactly with a verified factor, and is listed exactly without |
| ImportPlan.UnnamedRowsAreUntouched | apps/server/src/admin/state.ts:297-395 | rows the file does not name stay exactly as they were |
| ImportPlan.ImportStaysConsistent | apps/server/src/admin/state.ts:357-395 | no dangling grant, role or member is left, whatever the file names |
| ImportPlan.SkippedGrantsAreReported | apps/server/src/admin/state.ts:234-238 | a person's grant is missing afterwards exactly when the plan reported it |
| ImportPlan.MemberAfter | apps/server/src/admin/state.ts:378-380 | after an import a named group has exactly the known members of the last entry that names it |
| ImportPlan.SkippedMembersAreReported | apps/server/src/admin/state.ts:239-242 | a member the deciding entry lists is left out exactly when the plan reported it |
| ImportPlan.SkippedGroupGrantsAreReported | apps/server/src/admin/state.ts:243-245 | a group's grant is missing exactly when the plan reported it |
| ImportPlan.SecretPendingIsHonest | apps/server/src/admin/state.ts:276-280 | no secret is carried or lost; an app ends without a secret it needs exactly when it is listed and its last entry is confidential |
| ImportPlan.ReEnrolmentIsHonest | apps/server/src/admin/state.ts:248-257 | of everybody in the file, exactly those listed cannot sign in once it is imported |
| ImportLosses.UriAfter | apps/server/src/admin/state.ts:321-324 | an app has a redirect URI afterwards exactly as the last entry that decides about it says |
| ImportLosses.GrantsAfter | apps/server/src/admin/state.ts:357-369 | a grant has afterwards exactly the declared roles of the last entry that names its app |
| ImportLosses.PersonGrantAfter | apps/server/src/admin/state.ts:340-370 | the same over every entry of the person |
| ImportLosses.GroupGrantAfter | apps/server/src/admin/state.ts:372-395 | the same over every entry of the group |
| ImportPlan.ProfileAfter | apps/server/src/admin/state.ts:306-319 | an app's profile is the last naming entry's, or as it was |
| ImportLosses.UrisTaken | apps/server/src/admin/state.ts:321 | a stored redirect URI goes exactly when the last entry that decides about it does not list it |
| ImportLosses.BackchannelTaken | apps/server/src/admin/state.ts:311 | a logout address goes exactly when the last entry that names the app has none |
| ImportLosses.MembersTaken | apps/server/src/admin/state.ts:378-380 | a member goes exactly when the last entry of the group does not list them |
| ImportLosses.PersonRolesTaken | apps/server/src/admin/state.ts:365-368 | a role in a person's grant goes exactly when the last entry of that grant does not list it |
| ImportLosses.GroupRolesTaken | apps/server/src/admin/state.ts:390-393 | a role in a group's grant goes exactly when the last entry of that grant does not list it |
| ImportLosses.NothingElseTaken | apps/server/src/admin/state.ts:297-395 | no row, no declared role and no grant is ever removed |
| ImportLosses.ImportRemoves | apps/server/src/admin/state.ts:291-296 | one import that takes a URI, a member, a person's role and a group's role |
| ImportLosses.DeclaredAfter | apps/server/src/admin/state.ts:325-337 | an app declares a role afterwards exactly when it did, or some entry of the file does |
| ImportLosses.PersonRolesDroppedSilently | apps/server/src/admin/state.ts:365-368 | a role a person's grant lists is lost unreported exactly when its app is known and nothing declares the role |
| ImportLosses.GroupRolesDroppedSilently | apps/server/src/admin/state.ts:390-393 | the same of a group's grant |
| ImportLosses.DroppedInSilence | apps/server/src/admin/state.ts:89-90 | an import with no problem to list that drops a role |
| ExportRoundTrip.ExportExists | apps/server/src/admin/state.ts:146-208 | every instance has an export |
| ExportRoundTrip.RoleListIsDetermined | apps/server/src/admin/state.ts:148 | with distinct sort orders every export lists an app's roles alike |
| ExportRoundTrip.RenumberedKeeps | apps/server/src/admin/state.ts:325-337 | after renumbering on import the next export lists exactly the roles that were listed, in the same order |
| ExportRoundTrip.ImportOfExport | apps/server/src/admin/state.ts:146-208 | any export, whatever order its rows came in, imported into an empty instance gives the instance without its secrets, kinds and sign-ins |
| ExportRoundTrip.ExportOfImportOfExport | apps/server/src/admin/state.ts:146-208 | any export of that has the same apps, role lists in the same order, groups and grants; people differ only in kind and status |
| StateStores.StateStore.KindsFor | apps/server/src/admin/state.ts:104-138 | the loop that decides kinds and problems: the last entry asking a non-owner a kind they may be decides it |
| StateStores.StateStore.PresetChecks | apps/server/src/admin/state.ts:227-233 | every app built by a preset this version does not know is a problem |
| StateStores.StateStore.PlanImport | apps/server/src/admin/state.ts:211-285 | the plan, read from the tables and changing none |
| StateStores.StateStore.UpsertApp | apps/server/src/admin/state.ts:305-338 | one app entry: profile overwritten, absent fields left alone, redirect URIs replaced, roles added or overwritten |
| StateStores.StateStore.UpsertGrants | apps/server/src/admin/state.ts:357-369 | each named grant ends with exactly the declared roles listed; unknown apps are skipped |
| StateStores.StateStore.UpsertPerson | apps/server/src/admin/state.ts:340-370 | one person entry, with the kind the plan decided |
| StateStores.StateStore.UpsertGroup | apps/server/src/admin/state.ts:372-395 | one group entry: members replaced by the known ones, named grants replaced |
| StateStores.StateStore.ImportState | apps/server/src/admin/state.ts:297-395 | a dry run changes nothing; otherwise the state is the import of the file, and the answer is the plan made before |
| LogoutTokens.AcceptedIsALogout | packages/auth-client/src/logout-token.ts:46-82 | whatever either receiver accepts is for this app, from this issuer, a logout event without nonce, names somebody and is no older than `maxAge` |
| LogoutTokens.RefusedExactly | packages/auth-client-python/d3auth_client/logout_token.py:133-189 | a token is accepted exactly without a fault, and a refusal names a fault it has, for either library |
| LogoutTokens.MintedIsAccepted | packages/auth-client/src/logout-token.ts:46-82 | either receiver accepts a token minted for its app exactly while it is no older than `maxAge` on that receiver's clock |
| LogoutTokens.ReceiversAgree | packages/auth-client-python/d3auth_client/logout_token.py:158-189 | on minted tokens Python's acceptances are TypeScript's, and TypeScript accepts more exactly in the fraction of a second past `maxAge` |
| LogoutTokens.WhereReceiversDiffer | packages/auth-client-python/d3auth_client/logout_token.py:158-189 | the exact differences on arbitrary tokens: `typ`, the form of `iat`, and claims of other types |
| LogoutHandlers.HandleRemembers | packages/auth-client/src/logout-token.ts:120-122 | the store holds exactly the `jti`s of the newest ended sessions, for every limit and either library |
| LogoutHandlers.RunRemembers | packages/auth-client-python/d3auth_client/logout_token.py:207-210 | the same over every run, and no entry repeats one of the entries the store still holds |
| LogoutHandlers.StoresAgree | packages/auth-client/src/logout-token.ts:92-101 | for every limit of at least one the two stores are the same machine |
| LogoutHandlers.StoresPartAtZero | packages/auth-client/src/logout-token.ts:92-101 | at limit zero TypeScript keeps the last `jti` and Python none |
| LogoutHandlers.AtMostOncePerJti | packages/auth-client/src/logout-token.ts:109-124 | `endSession` at most once per `jti` if no `maxAge` window accepts more distinct tokens than the store holds |
| LogoutHandlers.OneTooMany | packages/auth-client/src/logout-token.ts:92-101 | for every limit one distinct token more is enough for a second call |
| LogoutReceivers.OnlyAcceptedCount | packages/auth-client/src/logout-token.ts:112-118 | refused tokens leave the handler as if they had not come |
| LogoutReceivers.RepliesAreTrue | packages/auth-client/src/logout-token.ts:112-124 | ended, repeated and refused are answered exactly when they happened |
| LogoutReceivers.VerifiedIsTimely | packages/auth-client/src/logout-token.ts:71-72 | verification supplies the age bound the memory relies on, if the signed tokens of the run, and only they, are honest |
| LogoutReceivers.EndsEachSessionOnce | packages/auth-client-python/d3auth_client/logout_token.py:245-264 | at most once per `jti` over any posts, with any number of forged ones of any content, stale and repeated ones included |
| LogoutReceivers.SeenEvents.Add | packages/auth-client-python/d3auth_client/logout_token.py:207-210 | adds, then drops the oldest until it fits |
| LogoutReceivers.InMemorySeen.Add | packages/auth-client/src/logout-token.ts:96-99 | makes room, then adds |
| LogoutReceivers.PythonHandler.Receive | packages/auth-client-python/d3auth_client/logout_token.py:245-264 | one post: refused, repeated, or remembered and ended |
| LogoutReceivers.TypeScriptHandler.Receive | packages/auth-client/src/logout-token.ts:112-124 | the same for the TypeScript library |
| LogoutKeySets.CheckedKeeps | packages/auth-client-python/d3auth_client/logout_token.py:78-101 | verifying any token keeps every request at least the cooldown after the last completed fetch |
| LogoutKeySets.ReachableIsValid | packages/auth-client-python/d3auth_client/logout_token.py:60-101 | so in every run on one clock |
| LogoutKeySets.FetchesAreRateLimited | packages/auth-client-python/d3auth_client/logout_token.py:78-84 | any `n` completed fetches in a row span at least `(n-1)` cooldowns, for any mix of tokens |
| LogoutKeySets.ShortGapsFollowFailures | packages/auth-client-python/d3auth_client/logout_token.py:73-76 | requests closer together than the cooldown happen only after a failed one |
| LogoutKeySets.OnlyFailuresReopenTheGate | packages/auth-client-python/d3auth_client/logout_token.py:73-84 | within the cooldown after a request the next check makes another exactly when that one failed |
| LogoutKeySets.OutageIsNotRateLimited | packages/auth-client-python/d3auth_client/logout_token.py:73-76 | while the provider does not answer, each of `n` simultaneous tokens costs a request |
| LogoutKeySets.GoodTokenVerifies | packages/auth-client-python/d3auth_client/logout_token.py:133-156 | a good token verifies exactly when the cache is empty, holds its signer, or is older than the cooldown |
| LogoutKeySets.DecodedMeansHeld | packages/auth-client-python/d3auth_client/logout_token.py:137-156 | what decodes is signed by a key in the set then held |
| LogoutKeySets.BadTokenNeverDecodes | packages/auth-client-python/d3auth_client/logout_token.py:133-156 | a token that is not sound, or names another key than its signer's, never decodes, whatever is fetched |
| LogoutKeySets.FailureIsTheLastFetch | packages/auth-client-python/d3auth_client/logout_token.py:73-101 | the caller hears of a failed fetch exactly if this check made one and its last failed |
| LogoutKeySets.KeySet.Refresh | packages/auth-client-python/d3auth_client/logout_token.py:73-76 | a fetch that raises leaves keys and cooldown alone |
| LogoutKeySets.KeySet.RefreshIfStale | packages/auth-client-python/d3auth_client/logout_token.py:78-84 | fetches only outside the cooldown |
| LogoutKeySets.KeySet.Keys | packages/auth-client-python/d3auth_client/logout_token.py:86-101 | the cached keys, refetched at most once for an unknown kid |
| LogoutKeySets.KeySet.Verify | packages/auth-client-python/d3auth_client/logout_token.py:133-156 | one decode, and one more only against newly fetched keys |
| LogoutSenders.AttemptsTakeAtMost | apps/server/src/oidc/backchannel.ts:31-33 | the time the first attempts may take |
| LogoutSenders.DeliveryIsBounded | apps/server/src/oidc/backchannel.ts:131-149 | a delivery takes at most 8,750 ms, reached exactly by three silent posts |
| LogoutSenders.StopIsDetermined | apps/server/src/oidc/backchannel.ts:131-149 | where sending stops is fixed by what the network does |
| LogoutSenders.SendsAreSpaced | apps/server/src/oidc/backchannel.ts:31-33 | each token is signed after the pause: 250 ms after the first post is over, a second after the second |
| LogoutSenders.RowSaysExactly | apps/server/src/oidc/backchannel.ts:104-174 | which row is written, exactly: delivered at the first 200 or 204 in time, failed after three others, or why nothing was posted |
| LogoutSenders.TokenNames | apps/server/src/oidc/backchannel.ts:97-100 | a token names the person, and the session exactly for an app that requires it |
| LogoutSenders.Backchannel.PostOnce | apps/server/src/oidc/backchannel.ts:96-114 | one token with a new `jti` and at most the timeout |
| LogoutSenders.Backchannel.Deliver | apps/server/src/oidc/backchannel.ts:116-158 | stops at the first acknowledgement or after three attempts; tokens, elapsed time and the one row are exactly those |
| LogoutSenders.Backchannel.Notify | apps/server/src/oidc/backchannel.ts:160-174 | one row that agrees with the result, at most three posts, at most 8,750 ms |
| LogoutSenders.Backchannel.NotifySession | apps/server/src/oidc/backchannel.ts:180-191 | one row for every app of the session, each the right one |
| LogoutDelivery.OneArrives | packages/auth-client/src/logout-token.ts:112-124 | a sent token with a new `jti` that arrives passes verification and ends a session exactly when the app's library finds it good and it is young enough |
| LogoutDelivery.EachArrivalEnds | packages/auth-client/src/logout-token.ts:112-124 | so do all tokens of one delivery, after any earlier posts |
| LogoutDelivery.EndsOncePerAttempt | apps/server/src/oidc/backchannel.ts:96-99 | one delivery ends the session once per attempt whose token arrived signed, unexpired and young enough, for any clock offset, at most three times |
| LogoutDelivery.CountIsBounded | apps/server/src/oidc/backchannel.ts:131-149 | the tokens that count are at most the attempts that reached the app, and all of those if each is young enough |
| LogoutDelivery.PromptCounts | packages/auth-client/src/logout-token.ts:71-72 | with agreeing clocks a good token that arrives before the sender gives up is young enough for four seconds of `maxAge` |
| LogoutDelivery.PromptAttemptsAllEnd | apps/server/src/oidc/backchannel.ts:131-149 | then every attempt that got through counts: more than once exactly when two did, at least once when the sender was told so |
| LogoutDelivery.LostReply | apps/server/src/oidc/backchannel.ts:131-149 | a delivery reported as a success whose lost reply and retry end two sessions |
| Approvals.StepIsSane | apps/server/src/account/approvals.ts:97-137 | every step keeps: one winner per row, the row records it, spent means approved |
| Approvals.StepExtends | apps/server/src/account/approvals.ts:132-135 | no step changes a verdict, an answer time or a consumption already there |
| Approvals.RunIsSane | apps/server/src/account/approvals.ts:97-137 | both over every interleaving |
| Approvals.OneAnswerDecides | apps/server/src/account/approvals.ts:125-137 | at most one answer wins each approval, the row keeps it, and it is spent at most once and only if approved |
| Approvals.ApprovedMeansTheNumberWasSent | apps/server/src/account/approvals.ts:125-137 | an approved row has a winning answer by the person asked, with the stored number, before the expiry |
| Approvals.VerdictSaysWhatWasSent | apps/server/src/account/approvals.ts:130 | in every run a verdict says what the winning answer was: a denial, the stored number, or another one |
| Approvals.PollsExactly | apps/server/src/account/approvals.ts:97-102 | a poll shows the verdict of the answer that won, and without one whether time is left |
| Approvals.AnswersExactly | apps/server/src/account/approvals.ts:125-129 | an answer is taken up exactly by the person asked, unanswered and in time; otherwise it is told which of these failed |
| Approvals.WritesExactly | apps/server/src/account/approvals.ts:131-136 | the write decides exactly an open row of that person, in time, and no other row |
| Approvals.FirstAnswerDecides | apps/server/src/account/approvals.ts:75-136 | a new approval waits exactly two minutes, and the first uninterrupted answer decides it by the number it was started with |
| Approvals.VerdictIsFinal | apps/server/src/account/approvals.ts:97-102 | a verdict once polled is what every later poll shows |
| Approvals.ToldIsTrue | apps/server/src/account/approvals.ts:132-136 | an answer told its verdict is the one the row shows from then on |
| Approvals.LosersFindItAnswered | apps/server/src/account/approvals.ts:131-136 | an answer in flight loses exactly when another was written first |
| Approvals.SpendableOnce | apps/server/src/account/approvals.ts:104-110 | consumption succeeds exactly for an approved, unspent row of this interaction |
| ApprovalChoices.ChoicesFor | apps/server/src/account/approvals.ts:19-29 | three distinct numbers from 10 to 99, the right one where the draws put it |
| ApprovalChoices.EveryPositionIsEquallyLikely | apps/server/src/account/approvals.ts:24-27 | each position holds the right number for two of the six draws |
| ApprovalChoices.ShuffleKeeps | apps/server/src/account/approvals.ts:24-27 | the shuffle keeps the numbers distinct and tells where the right one lands |
| ApprovalStores.ApprovalStore.Start | apps/server/src/account/approvals.ts:75-95 | a pending row that expires after two minutes |
| ApprovalStores.ApprovalStore.State | apps/server/src/account/approvals.ts:97-102 | the verdict if there is one, else expired or pending |
| ApprovalStores.ApprovalStore.AnswerRead | apps/server/src/account/approvals.ts:125-130 | the read half of an answer, with its refusals in order |
| ApprovalStores.ApprovalStore.AnswerWrite | apps/server/src/account/approvals.ts:131-136 | the conditional update and what the caller is told |
| ApprovalStores.ApprovalStore.Consume | apps/server/src/account/approvals.ts:104-110 | true exactly when the row was spendable, which it then is not |
| LoginMachine.LoginsAreShort | apps/server/src/interaction/machine.ts:74-121 | every accepted event is a rejection that changes nothing or progress down a measure, so at most four progress a login |
| LoginMachine.AcceptsExactly | apps/server/src/interaction/machine.ts:74-121 | which events each state takes; any other fails and names both; a rejection stays |
| InteractionFlows.StatesAreEarned | apps/server/src/interaction/routes.ts:423-785 | every reachable flow state is backed by the requests that led to it |
| InteractionFlows.NextEvidence | apps/server/src/interaction/routes.ts:423-785 | one request's worth of that evidence |
| InteractionFlows.SignInStep | apps/server/src/interaction/routes.ts:213-276 | which request, in which state, completes a login |
| LoginCompletions.EndsExactly | apps/server/src/interaction/routes.ts:213-276 | a request ends somebody's login exactly as an admitted passkey off the factor step, a checked password that needs no factor, a factor on a trusted device, or the device answer |
| LoginCompletions.SignsInExactly | apps/server/src/interaction/routes.ts:213-276 | it signs them in exactly if the client is granted to them, and turns them away exactly if not |
| LoginCompletions.SignInSays | apps/server/src/interaction/routes.ts:213-276 | what a completed login records: `amr` for each way in, and a remembered device exactly by that answer |
| LoginCompletions.PasskeyRun | apps/server/src/interaction/routes.ts:718-753 | from anywhere but a factor step, a challenge and a passkey that answers it sign its account in |
| LoginCompletions.PasswordRun | apps/server/src/interaction/routes.ts:482-550 | every active account due no factor signs in with its password |
| LoginCompletions.FactorRun | apps/server/src/interaction/routes.ts:553-785 | every other one signs in with its password and any factor it may use: a code, a passkey or an approval |
| LoginCompletions.FactorsAre | apps/server/src/interaction/routes.ts:447-462 | the factors offered: the account's own, and the phone beside one of them; due unless the browser is trusted |
| LoginCompletions.IdentifyShows | apps/server/src/interaction/routes.ts:464-476 | at the first step every email is shown the password screen; nameless unless it is of an active account |
| LoginCompletions.RefusedExactly | apps/server/src/interaction/routes.ts:423-785 | out of step is answered so exactly then; in its step a request is refused exactly without what it must show |
| LoginCompletions.StartsExactly | apps/server/src/interaction/routes.ts:608-647 | an approval that starts is of the account at the step, for this interaction, pending, and leaves the others alone |
| LoginCompletions.AtMostFiveApprovals | apps/server/src/interaction/routes.ts:626-632 | in every run an interaction asks the phone at most five times |
| LoginCompletions.ApprovalsCountOnce | apps/server/src/account/approvals.ts:104-110 | in every run one approval is the factor of at most one request |
| InteractionFlows.SignInsAreEarned | apps/server/src/interaction/routes.ts:213-276 | each sign-in is a passkey of that account with `amr` exactly `hwk`, or a named account, its password and, when due, a factor verified at its factor step and the device answer, with `amr` listing exactly those |
| InteractionFlows.WhatAmrSays | apps/server/src/interaction/machine.ts:61-72 | `amr` is `hwk` alone, or starts with `pwd` and lists a second factor exactly when the named account was due one; a remembered device implies one |
| InteractionFlows.AmrHoldsFactor | apps/server/src/interaction/machine.ts:58-72 | after a factor, `amr` starts with `pwd` and holds the factor's method, recovering or not; after the password alone it lists none |
| InteractionFlows.RecoveryExcusesNobody | apps/server/src/interaction/machine.ts:61-72 | after the password a login is complete exactly without factors or on a trusted device, armed recovery or not |
| InteractionFlows.ChallengeStep | apps/server/src/security/webauthn.ts:140-187 | a challenge changes only by being begun anew or answered |
| InteractionFlows.ChallengesComeFrom | apps/server/src/interaction/routes.ts:705-716 | in every run a remembered challenge names the account at whose factor step it was begun, or nobody |
| InteractionFlows.RowComesFrom | apps/server/src/account/approvals.ts:75-95 | an approval is of the account whose factor step started it, for good |
| InteractionFlows.ApprovalsComeFrom | apps/server/src/interaction/routes.ts:608-647 | the same in every run of an interaction |
| InteractionFlows.FactorIsOfTheAsked | apps/server/src/security/webauthn.ts:156-187 | in every run a verified factor is of the account it was asked of, and only a passkey may be asked of nobody |
| InteractionFlows.WhoseFactor | apps/server/src/interaction/routes.ts:744-753 | the factor a sign-in lists is the account's own exactly when it was asked at that account's factor step, or is a passkey asked of nobody that happens to be |
| InteractionFlows.OwnPasskeyExactly | apps/server/src/security/webauthn.ts:163 | every passkey that can pass is the account's own exactly when the remembered challenge, if any, was begun at that account's factor step |
| InteractionFlows.OwnApprovalExactly | apps/server/src/account/approvals.ts:97-110 | a spendable approval is the account's own exactly when it was started at that account's factor step |
| InteractionFlows.FactorLeads | apps/server/src/interaction/machine.ts:99-103 | a verified factor leads to the device question, with its method in `amr` |
| InteractionFlows.FactorThenTrust | apps/server/src/interaction/routes.ts:763-785 | a verified factor and a declined device question complete the login or clear it |
| InteractionFlows.PasskeyOfAnother | apps/server/src/interaction/routes.ts:718-759 | a run in which the passkey listed is not the account's |
| InteractionFlows.ApprovalOfAnother | apps/server/src/interaction/routes.ts:650-702 | a run in which the approval spent is not the account's |
| InteractionFlows.RefusalsChangeNothing | apps/server/src/interaction/routes.ts:423-785 | refused, out-of-step and failed requests change nothing, but for a challenge used up by an account that may not sign in |
| InteractionFlows.AcceptedIsProgress | apps/server/src/interaction/machine.ts:74-121 | shown states are progress or the nameless password screen, and a login that ends clears the flow |
| InteractionFlows.FailsExactly | apps/server/src/interaction/routes.ts:470-472 | the one request that fails names an active account past the first step |
| InteractionFlows.IdentifyAnswersAlike | apps/server/src/interaction/routes.ts:422-479 | whether the email step fails is the same for every email exactly at the first step |
| Interactions.Interaction.Finish | apps/server/src/interaction/routes.ts:213-276 | the grant decides; the flow is cleared either way, and challenge and approvals are not |
| Interactions.Interaction.PostIdentify | apps/server/src/interaction/routes.ts:423-479 | a known active account advances; any other leads to the nameless password screen |
| Interactions.Interaction.PostPassword | apps/server/src/interaction/routes.ts:482-550 | only a verified password of a named account advances |
| Interactions.Interaction.PostTotp | apps/server/src/interaction/routes.ts:553-605 | only a verified code at the factor step advances |
| Interactions.Interaction.StartApproval | apps/server/src/interaction/routes.ts:608-647 | at the factor step of an account with a phone, and at most five times an interaction, a row for that account |
| Interactions.Interaction.PollApproval | apps/server/src/interaction/routes.ts:650-702 | only an approval spent by this poll advances |
| Interactions.Interaction.BeginPasskey | apps/server/src/interaction/routes.ts:705-716 | a new challenge, for the account at whose factor step the flow is, or for nobody |
| Interactions.Interaction.FinishPasskey | apps/server/src/interaction/routes.ts:718-759 | a passkey the challenge admits is a factor at the factor step; anywhere else it signs its account in, if granted, and is turned away if not |
| Interactions.Interaction.PostTrust | apps/server/src/interaction/routes.ts:763-785 | the device answer completes the login |
| Accounts.AllowedActions | apps/server/src/admin/routes.ts:198-262 | a people action is allowed exactly on a known non-owner, not on oneself except for the kind, never to owner, and to admin only with a factor |
| Accounts.RefusalsAreTrue | apps/server/src/admin/routes.ts:198-262 | each refusal is given exactly when its check is the first that fails |
| Accounts.StatusComesFrom | apps/server/src/admin/routes.ts:273-301 | an account is active or suspended exactly by what was last done to it: reactivation, enrolment, suspension, a deletion request |
| Accounts.KindComesFrom | apps/server/src/admin/routes.ts:225 | a kind is what an admin set or an import decided, and otherwise as it was |
| Accounts.NewcomersComeFrom | apps/server/src/admin/invites.ts:171-180 | who is new joined as an active guest, or was imported inactive and no owner |
| Accounts.StepMakesNoOwners | apps/server/src/admin/routes.ts:198-315 | nobody becomes an owner, not even through a write whose check is old |
| Accounts.StepIsSane | apps/server/src/admin/routes.ts:243-262 | an account that passed the owner check stays a non-owner until its write |
| Accounts.StepKeepsAnOwner | apps/server/src/account/deletion.ts:34-48 | no step takes the last active owner |
| Accounts.NeverOwnerless | apps/server/src/account/deletion.ts:27-73 | nor does any run of deletions, purges, people actions, enrolments and imports, interleaved anyhow |
| Accounts.DateComesFrom | apps/server/src/account/deletion.ts:44 | a deletion date comes from a request by that account, or was there |
| Accounts.OnlyReactivationClears | apps/server/src/admin/routes.ts:299-301 | a date disappears exactly by an admin's reactivation |
| Accounts.DateWasRequested | apps/server/src/account/deletion.ts:27-54 | in every run a date is a request plus seven days, with no reactivation since |
| Accounts.DeletionIsGranted | apps/server/src/account/deletion.ts:27-45 | a request is granted exactly to an active account that is not the only active owner |
| Accounts.ReactivationUndoes | apps/server/src/admin/routes.ts:301 | reactivating undoes a deletion request and a suspension |
| Accounts.RequestIsCarriedOut | apps/server/src/account/deletion.ts:27-73 | whatever else happens, an account not reactivated or re-enrolled is deleted by a purge exactly once seven days have passed |
| Accounts.OnlyPurgeRemoves | apps/server/src/account/deletion.ts:67 | an account disappears only by a purge that finds it due |
| Accounts.PurgedOnlyAfterGrace | apps/server/src/account/deletion.ts:60-73 | whoever is purged asked at least seven days before the purge was listed, in a request that on one clock came before it, and was not reactivated since, not even between list and delete |
| Accounts.EnrolLeavesTheDate | apps/server/src/admin/invites.ts:171-180 | a re-enrolled account keeps its date: once past, a suspension hands it to the next purge |
| AccountImports.ImportIsAnAccountStep | apps/server/src/admin/state.ts:340-355 | for any account ids, every import of every file acts on kinds, statuses and deletion dates as one import step of the account runs |
| AccountStores.AccountStore.OtherActiveOwners | apps/server/src/account/deletion.ts:41 | the count is positive exactly when another active owner exists |
| AccountStores.AccountStore.RequestDeletion | apps/server/src/account/deletion.ts:27-54 | gone, last owner, or suspended with a date seven days on |
| AccountStores.AccountStore.PurgeOne | apps/server/src/account/deletion.ts:67-70 | one conditional delete and its audit row |
| AccountStores.AccountStore.PurgeDeletedAccounts | apps/server/src/account/deletion.ts:60-73 | uninterrupted, exactly the due accounts go, each with one row |
| AccountStores.AccountStore.Act | apps/server/src/admin/routes.ts:198-350 | a people action: the refusals in order, then the change |
| Manifests.RolesAreTheManifests | apps/server/src/admin/apps.ts:176-184 | the stored roles are the manifest's, numbered from the top |
| Manifests.AppRow.ReplaceUris | apps/server/src/admin/apps.ts:171-174 | delete-then-upsert leaves exactly the manifest's redirect URIs |
| Manifests.AppRow.ReplaceRoles | apps/server/src/admin/apps.ts:176-184 | delete-then-upsert leaves exactly the manifest's roles, and grants of the removed ones go |
| Manifests.AppRow.Apply | apps/server/src/admin/apps.ts:157-186 | the whole app row after an apply |
| Manifests.AppRow.Update | apps/server/src/admin/apps.ts:242-271 | refused and unchanged when an unconfirmed update would take a held role; unconfirmed updates take none |
| Manifests.CompareFields | apps/server/src/admin/manifest.ts:158-167 | the pushes of the field comparison |
| Manifests.EmptyDiffMeans | apps/server/src/admin/manifest.ts:147-193 | the diff is empty exactly when fields, URIs and roles look the same |
| Manifests.ChangesAreWhatApplyDoes | apps/server/src/admin/manifest.ts:158-167 | a field is listed exactly if an apply changes how it reads, from what it is to what it will be |
| Manifests.DiffIsWhatApplyDoes | apps/server/src/admin/manifest.ts:147-193 | added is what an apply adds, removed what it takes, changed what it renames, URIs and roles alike |
| Manifests.NothingLeftToReport | apps/server/src/admin/apps.ts:157-186 | after an apply the diff of the same manifest is empty |
| Manifests.NoOpExactly | apps/server/src/admin/manifest.ts:147-193 | an apply changes nothing exactly when the diff is empty and order, defaults and the post-logout list are the manifest's |
| Manifests.ReorderIsUnseen | apps/server/src/admin/manifest.ts:169-181 | an app and a manifest with an empty diff and an apply that changes the app: the same roles in the other order |
| Manifests.JoinedAlike | apps/server/src/admin/manifest.ts:167 | the same for two post-logout lists that read alike once joined by spaces |
| Manifests.ApplyTwice | apps/server/src/admin/apps.ts:157-186 | applying twice is applying once |
| Manifests.BlockingIsWhatWouldBeLost | apps/server/src/admin/manifest.ts:173-191 | the blocking list names exactly the roles some direct grant would lose |
| Manifests.RolesReadBackInOrder | apps/server/src/admin/apps.ts:93-98 | read by sort order, the roles come back in manifest order |
| ManifestAccess.BlockedIsTheDiffs | apps/server/src/admin/apps.ts:246-253 | the diff's blocking list is empty exactly when the access component does not refuse the update |
| ManifestAccess.UpdatesAgree | apps/server/src/admin/apps.ts:242-255 | the app row and the access directory show the same roles and direct grants after every update |
| AuditPaging.LimitOf | apps/server/src/admin/audit-query.ts:62 | a page has between 1 and 200 rows whatever is asked |
| AuditPaging.NewestRows | apps/server/src/admin/audit-query.ts:63-67 | the newest matching rows below the cursor, as many as asked for |
| AuditPaging.SearchAudit | apps/server/src/admin/audit-query.ts:61-90 | one page and its next cursor |
| AuditPaging.MatchingIsExact | apps/server/src/admin/audit-query.ts:46-59 | exactly the rows that match, each once, strictly newest first |
| AuditPaging.ConditionsAlone | apps/server/src/admin/audit-query.ts:46-59 | each condition alone: actor, target, event or family of events, from and to, both ends included |
| AuditPaging.ConditionsTogether | apps/server/src/admin/audit-query.ts:46-59 | a filter asks for the rows that meet each of its conditions |
| AuditPaging.PageHolds | apps/server/src/admin/audit-query.ts:62-89 | a page shows as many rows as asked for, 50 unless asked, 1 and 200 at the ends; a cursor exactly if more are left |
| AuditPaging.GrowthIsAboveTheCursor | apps/server/src/admin/audit-query.ts:57 | rows appended later never show below a cursor handed out |
| AuditPaging.CursorResumes | apps/server/src/admin/audit-query.ts:69-88 | the next cursor resumes right after the last row shown |
| AuditPaging.FollowFrom | apps/server/src/admin/audit-query.ts:61-90 | following cursors from any point ends and collects the rest of that view |
| AuditPaging.PagingIsExact | apps/server/src/admin/audit-query.ts:61-90 | following `nextCursor` ends and returns exactly the matching rows of the first page's log, none missed or repeated, while the log grows |

## Left out

- Cryptography and the protocol libraries: a signature is a kid or a flag, `interactionResult` is a minted family.
- HTTP, cookies, CSRF, DNS, mail, push and relay delivery: their outcome is a parameter, and audit writes succeed.
- Races inside one call of `generateNext`, `promoteNext`, a grant or group change, and a mint: each is one step here; the approvals, people actions and the purge are the ones modelled read and write apart.
- Two processes or threads sharing one receiver store or key cache: each handler call is one step.
- Forced key steps are in the runs and keep the table's invariant, but the timed theorem is about unforced runs.
- The order of keys inside the `/oidc/jwks` response, and `listKeys` beyond its flags.
- Purging a person, session revocation and trusted devices in the access component; the sessions service is not part of this model.
- Roles of the same sort order within one app: any order between them is allowed.
- Email case folding and username uniqueness in import; keys are taken as normalised.
- StateStores.StateStore.PlanImport: the always empty `unchanged` lists and the wording of the problems.
- Settings and `exported_at` of the exported file.
- AccessStores.AccessStore.EffectiveAccess: `firstSignInAt`, which is the visit table's and not part of this model.
- An import does not call the access hooks, so it is not a step of the access component.
- KeySet.refresh called by the app itself, which no cooldown guards.
- A `jti` that is not hashable in Python, and case-insensitive comparison of `typ` in the TypeScript library.
- LogoutSenders.Backchannel.NotifySession: the apps are told one after another, where the source starts all notifications at once; rows are the same, their order and the elapsed time are not.
- LogoutSenders.Backchannel.Deliver: the DNS lookup of the private-address rule is its result only, and the time the provider takes to sign a token is not counted.
- LogoutDelivery.EndsOncePerAttempt: the app's requests are taken in the order they were sent, with nobody else's post between two of them; whether the app's library finds a token signed by a known key and unexpired is its `live` flag.
- The provider's own sign-out delivery and its audit events (apps/server/src/oidc/backchannel.ts:215-237).
- ApprovalChoices.ChoicesFor: the source draws until it has three different numbers; here a finite supply of draws may run out, and then gives no answer.
- Throttling and the factor services' internals: each check is a yes or no. The expiry of a passkey challenge is a failed check.
- What a people action does to credentials, sessions and invitations; a reset leaves the fields of this model alone.
- Manifest parsing and URL rules, `register`, secrets, and the order and display names inside the diff's lists.
- The actor lookup, CSV and known events of the audit search; ids are taken to appear in increasing order.
- The console, CLI, backup, health checks and first-run claim.
