# Verified model of Ridu's stateful core

Ridu is a CMS framework written in Go. This project models the parts of it in which
state, concurrency or recursion make mistakes easy, and proves what the code, its
comments and its tests promise of them.

* **Field graph** (`FieldGraph`, `Below`, `Walk`, `Conditions`, `ConditionLaws`, `Shown`,
  `DraftRules`, `DraftValidator`, `Drafts`, `Rename`, `RenameMeaning`, `RenameExactness`,
  `RenameChain`, `LayoutRename`). Authored fields form a tree with five kinds of child
  boundary. Branch replacement is a lens; a draft is a transaction over a detached slice; a
  rename rewrites visibility references. The meaning of a condition is that of the admin
  interface's evaluator, applied at every place where a document stores the field. `Below`
  and `Shown` spell out, kind by kind and without the branch view, what is below a graph and
  what a document shows of it; the walk, the rename and the evaluation are measured by them.
* **Block registry** (`BlockRegistry`, `RegistryNames`, `RegistryInvariant`, `RegistryResults`,
  `RegistryFaithful`, `RegistrySuccess`, `RegistryAgain`, `RegistryRebind`, `RegistryMachine`).
  A recursive, memoising binder that interns one definition per slug. It is written once as
  functions on registry values and once as the mutable object, which is proved equal to the
  functions. Both what is bound and how it relates to what was authored are proved.
* **Preview tokens** (`PreviewTokens`, `PreviewProtocol`, `PreviewSafety`, `PreviewRuns`,
  `PreviewRevocation`). Mints, permanent deletes under a fence, preview reads and revocations
  as interleaved steps over the mutex-protected table. Documents have incarnations: creating a
  document again under its old identifier, even with the old creation time, is another
  incarnation.
* **Credentials** (`CredentialStore`, `CredentialProtocol`, `CredentialSafety`,
  `CredentialRuns`, `CredentialMachine`). Login with hash upgrade, rotation, API-key creation,
  password change, token reset and e-mail verification as interleaved steps over atomic store
  operations; the machine drives the mutable store through the same steps.
* **Uploads** (`UploadKeys`, `UploadListing`, `UploadReconciliation`, `UploadProtocol`,
  `UploadRuns`). The paged and batched reconciliation of object storage with its loops, and the
  protocol of uploads, imports, saves and cleanups around the per-key object locks.
* **Lowering** (`Lowering`). The memoised walk that collects the bindings of a resource and
  of every block definition it reaches.
* **Tasks** (`TaskDelay`, `TaskRunner`). Retry delays on 64-bit nanoseconds, one attempt of
  a claimed task, and the summary of a cycle.
* **Scanners and printers** (`JsonScan`, `Encodings`, `UploadGrant`, `Slug`).

Runs are sequences of actions. In each protocol `Apply` is one atomic step, `Run` a whole
run, and the safety results are about every state that any run reaches from an initial state.
The `Runs` modules say what each flow does when nothing comes in between, and when it is
refused. The functions that `Apply` uses for a critical section or a store operation are the ones that
the methods of the mutable class are proved equal to.

Some promises do not hold everywhere. For these the exact condition is proved:

* A layout may share its name with a field inside it, because layouts claim no name.
  Renaming the layout then rewrites the references to that field and loses them;
  `LayoutRenameLosesReferences` is a sample graph where that happens. For every graph, a rename
  of a layout leaves all comparisons true of the same documents if and only if no reference has
  to be rewritten (`LayoutRenameExactly`). For stored children, renamed at the root or among
  siblings only, the condition is that every reference is safe (`RenameExactly`), and for
  `RenameRoot` a graph whose references resolve meets it (`RenameRootKeepsMeaning`).
* A rename checks the draft before it rewrites references, so the draft it leaves may hold a
  path that is too long to publish. It publishes if and only if the rewritten paths of its
  scope fit (`RenamePublishes`).
* A worker that is shutting down asks the store to release its task even if a heartbeat has
  already failed: the result of stopping the heartbeat is dropped (core/task.go:632-635).
  So a lost lease stops every mutation exactly when the worker is not stopping
  (`TaskWorker.Execute`).
* A save that named keys without their locks could leave a reference to a deleted object
  (`UnlockedCommitDangles`). In any reachable state a save is safe for every continuation if and
  only if its keys are stored and no other call is deleting them or may still roll them back;
  holding the locks implies that (`SaveIsSafeExactly`).

The text of an upload grant is not promised to be canonical, and it is not: `TextIsNotCanonical`
reads a second text for every grant. `TextIsCanonicalExactly` says which accepted texts are the
printed ones. Grants parse back exactly, and two grants never share a text.

## Model

| member | source | states |
|---|---|---|
| `FieldGraph.ReplaceBranchLens` | field/graph_edit.go:91-138 | Replacement succeeds exactly for an existing, unreferenced branch, and then changes the children of that branch alone: every other branch, name and policy is as before |
| `FieldGraph.BoundaryLens` | field/graph_edit.go:106-137 | Each structural boundary writes its own children and no other part of the node |
| `FieldGraph.ReplaceThenRead` | field/graph_edit.go:71-138 | Reading after replacing gives the new children |
| `FieldGraph.ReadThenReplace` | field/graph_edit.go:71-138 | Replacing a branch with what was read from it changes nothing |
| `FieldGraph.ReplaceTwice` | field/graph_edit.go:91-138 | The last of two replacements of a branch wins |
| `Below.BranchesAreUnder` | field/graph_edit.go:71-90 | The branches of a node lead to exactly the children its kind has, its blocks and its embedded cases, in order, each with its boundary, slug and sharing |
| `Below.OwnListed` | field/graph_edit.go:71-82 | Objects, arrays, rows, collapsibles and tab sets have one branch for their child list with the boundary of their kind, blocks fields one per block, no other kind any |
| `Walk.WalkVisitsEachNodeOnce` | field/graph_edit.go:140-183 | A walk visits exactly the nodes of the graph, each with its own surroundings, in strictly increasing declaration order, none twice |
| `Walk.FieldsIncrease` | field/graph_edit.go:152-183 | The visits to any field list, at any depth, come in declaration order |
| `Walk.FieldsCovered` | field/graph_edit.go:152-183 | A place is visited exactly when the graph has a node there, with the selectors, stored path and nearest shared definition of that place |
| `Below.WalkVisitsEverythingBelow` | field/graph_edit.go:152-183 | The walk visits exactly the nodes below the graph, spelled out by kind, in order, each with its selectors, position, stored path and shared definition |
| `Conditions.AcceptedMeaning` | field/condition.go:55-148 | A condition is accepted exactly when it is absent, or every node is well shaped, none is deeper than 32 levels and there are at most 256 |
| `Conditions.ValidateMeaning` | field/condition.go:55-123 | Started at any depth and count, the validator accepts exactly the well-shaped trees that fit the remaining depth and node budget, and then counts each node once |
| `ConditionLaws.BooleanLaws` | admin/src/core/forms/field-condition.ts:11-26 | All, any and not combine as counting the holding conditions says, and obey the laws of negation |
| `ConditionLaws.ComparisonLaws` | admin/src/core/forms/field-condition.ts:38-58 | Equality holds where that scalar is stored at the path, inequality is its negation, one-of is some equality; sibling paths start at the scope, others at the document |
| `ConditionLaws.DeclarationRules` | field/condition.go:55-131 | Which groups and comparisons are well declared, kind by kind |
| `ConditionLaws.NothingBesides` | field/condition.go:55-131 | A well declared condition holds nothing that does not belong to its kind and no operand that failed to normalise |
| `ConditionLaws.ReferenceRules` | field/condition.go:55-131 | A reference is up to 64 dotted names within 4096 characters, of lower-case-led letters, digits and underscores |
| `Shown.EvaluateShows` | admin/src/core/forms/field-condition.ts:28-36 | Evaluating a graph gives the outcome of every field at every object, array row, block row and embedded payload that stores it |
| `DraftValidator.ConditionValidator.Check` | field/condition.go:55-123 | Filling the issue list and the shared node counter, the validator raises an issue exactly when the tree is refused and leaves the specified count |
| `DraftValidator.ConditionValidator.CheckShape` | field/condition.go:69-119 | A node raises no issue exactly when its kind, operands, reference and values meet the declaration rules |
| `DraftValidator.ConditionValidator.CheckValues` | field/condition.go:106-116 | Values raise no issue exactly when none repeats and all are of one type |
| `DraftRules.ValidateDraftMeaning` | field/graph_edit.go:293-330 | A draft is accepted exactly when every name and condition in the flattened scope is acceptable and no name is claimed twice, at any layout depth |
| `DraftRules.ScopeMeaning` | field/graph_edit.go:302-328 | Extending a set of claimed names by a scope succeeds exactly when the scope is admissible and claims only new, distinct names, and adds precisely those |
| `DraftValidator.ScopeValidator.Claim` | field/graph_edit.go:293-330 | The recursive loop over the mutable name set ends with that set, or with the first offence in declaration order |
| `DraftValidator.CheckDraft` | field/graph_edit.go:293-330 | Validation reports an error exactly when the scope is not admissible or a name is claimed twice |
| `Rename.RewriteFieldsOutcome` | field/graph_edit.go:510-557 | Rewriting fails exactly when a needed rewrite lies inside a referenced shared definition, reports a change exactly when one was needed, and otherwise returns its input |
| `Rename.RewriteNodeOutcome` | field/graph_edit.go:514-549 | Rewriting a node changes its condition and the children of its branches and nothing else |
| `RenameMeaning.RewrittenReadsSame` | field/graph_edit.go:523-530 | A rewritten reference reads every key-renamed document as before exactly when it does not start with the new name |
| `RenameMeaning.UntouchedReadsSame` | field/graph_edit.go:523-530 | A reference left alone reads every key-renamed document as before exactly when it starts with neither name |
| `RenameMeaning.LayoutRenameReadsSame` | field/graph_edit.go:523-530 | A reference rewritten for a layout reads every document as before exactly when it does not start with the layout's name |
| `RenameMeaning.RenameKeepsMeaning` | field/graph_edit.go:493-559 | A successful rename of a stored child keeps the value of every condition, at any depth and placement, on every document, when each reference is of the kind the two exact conditions allow |
| `RenameMeaning.RenameRootKeepsMeaning` | field/graph_edit.go:488-559 | For RenameRoot it is enough that the references of the graph resolve |
| `Below.RenameReachesEverythingBelow` | field/graph_edit.go:510-552 | After a successful rename every node below stands where it stood, only conditions have changed, and no reference the rename applies to, at any depth, starts with the old name |
| `RenameExactness.ComparisonHoldsAlike` | field/graph_edit.go:516-532 | A comparison is true of the same documents before and after its rewriting exactly when its reference is safe (stored children) or left alone (layouts) |
| `RenameExactness.RenameExactly` | field/graph_edit.go:484-559 | A successful rename of a stored child, at the root or among siblings, keeps every comparison at every depth exactly when every reference is safe, and then keeps the value of every condition on every document |
| `RenameMeaning.RenameOutcome` | field/graph_edit.go:493-559 | A rename succeeds exactly when one direct child has the name, the new name is usable, the renamed draft validates and nothing needed is inside a shared definition |
| `RenameMeaning.ResolvesSafe` | internal/config/graph.go:401-473 | In a resolving graph no reference can start with a name the root does not claim |
| `RenameChain.ResolutionRules` | internal/config/graph.go:401-473 | A path selects a stored child by name and goes on inside objects only |
| `RenameChain.RenameRootKeepsResolution` | field/graph_edit.go:488-559 | After a successful root rename every reference of the graph still selects a field |
| `RenameChain.RenamePublishes` | field/graph_edit.go:505-557 | The draft that a rename of a stored child leaves publishes exactly when every rewritten path of its scope, through layouts, is within the length of a path |
| `RenameChain.RenamesKeepMeaning` | field/graph_edit.go:488-559 | Any chain of root renames of stored children whose rewritten paths fit keeps every condition's meaning from the first graph and document to the last, and the last graph still publishes and resolves |
| `LayoutRename.LayoutRenameExactly` | field/graph_edit.go:493-559 | A successful rename of a layout keeps every comparison of the graph on the unmoved documents exactly when no reference has to be rewritten, and then changes the layout's name only |
| `LayoutRename.LayoutRenameLosesReferences` | field/graph_edit.go:312-325 | A sample: a collapsible that shares its name with a text field inside it is renamed, whatever the names; the rename is accepted and hides on a stored document what a comparison with that field showed |
| `Drafts.PublishedNamesAreUnique` | field/graph_edit.go:281-292 | Whatever calls a callback makes, and however they fail, a published graph claims every name of its flattened scope once |
| `Drafts.RemoveKeepsValid` | field/graph_edit.go:472-480 | Removing a child, which is not checked, never makes a valid draft invalid |
| `Drafts.ApplyDoes` | field/graph_edit.go:351-480 | Every accepted call has the effect it is named for at the position it addresses, and nothing else changes |
| `Drafts.AcceptedWhenPublishable` | field/graph_edit.go:436-480 | Insertions and replacements are accepted exactly when the content they give can be published, removals and refinements always |
| `Drafts.RefusedForItsAddress` | field/graph_edit.go:334-348 | A call that addresses no child, or an ambiguous one, is refused for that reason |
| `Drafts.BranchEditsSucceed` | field/graph_edit.go:397-416 | A branch edit fails for an unknown or shared branch, a failed transaction or an unpublishable result, and for nothing else |
| `Drafts.UnknownBranchIsRefused` | field/graph_edit.go:397-416 | Without such a branch the edit is an unknown branch |
| `Drafts.ChildrenOfLists` | field/graph_edit.go:420-431 | EditChildren opens the child list of objects, arrays, rows and collapsibles and refuses every other kind |
| `Drafts.RefinementRefuses` | field/graph_edit.go:351-384 | An editor refuses a field that does not fit it, and a refinement that renames |
| `Drafts.StepsJoin` | field/graph_edit.go:281-292 | Calls act one after the other, and a refused one is as if it had not been made |
| `Drafts.EditPublishesExactly` | field/graph_edit.go:281-292 | A transaction publishes what its calls left exactly when the callback succeeds and that is valid |
| `Drafts.ChildrenDraft.Perform` | field/graph_edit.go:351-480 | Each call on a draft gives the specified content or its error, incompatible kinds included, and a failure leaves the content unchanged |
| `Drafts.ChildrenDraft.DeleteAt` | field/graph_edit.go:472-480 | The in-place deletion removes one position of the backing array and shifts the rest |
| `Drafts.ChildrenDraft.PerformAll` | field/graph_edit.go:281-292 | A callback's calls act on the draft one after the other, failed ones included |
| `Drafts.Edit` | field/graph_edit.go:281-292 | An edit returns the published graph or the original with an error, in fresh storage, and never writes the caller's slice |
| `Drafts.EditAndKeepDraft` | field/graph_edit.go:273-292 | No later use of a retained draft, in-place removal included, changes the caller's slice or the published graph |
| `RegistryInvariant.DefinitionKeeps` | field/block_registry.go:114-140 | Binding a central definition, successfully or not, keeps the registry invariant and only adds definitions |
| `RegistryInvariant.ReferencesKeep` | field/block_registry.go:210-226 | Selecting references keeps the invariant; on success the result is the one definition of each slug, none repeated |
| `RegistryInvariant.DeclareKeeps` | field/block_registry.go:233-278 | Interning inline declarations keeps the invariant, and their memo entry is the interned definitions |
| `RegistryInvariant.DeclareOneKeeps` | field/block_registry.go:239-275 | One inline declaration becomes, or equals, the one definition of its slug |
| `RegistryInvariant.BindFieldsKeeps` | field/block_registry.go:142-200 | Binding any field list at any depth keeps the invariant; on success its containers place interned definitions only |
| `RegistryInvariant.RecordKeepsOrder` | field/block_registry.go:137-139 | A newly bound definition refers only to definitions bound strictly before it |
| `RegistryResults.NewIsComplete` | field/block_registry.go:38-62 | A constructed registry satisfies the invariant, has an empty stack and has bound every central declaration |
| `RegistryResults.BindKeeps` | field/block_registry.go:103-110 | Binding a resource keeps the registry complete even when it fails |
| `RegistryResults.ConfigIsClosed` | field/block_registry.go:34-110 | A configuration that binds is closed: every placement is the interned definition of its slug and the binding order is topological |
| `RegistryResults.NoReferenceCycle` | field/block_registry.go:122-130 | No path of references in a bound registry returns to its start |
| `RegistryResults.PlacementsAgree` | field/block_registry.go:228-233 | Any two placements of one slug, in any resources or definitions, carry one identical definition |
| `RegistryResults.TypeNamesDistinct` | field/block_registry.go:79-88 | Distinct slugs have distinct generated type names |
| `RegistryNames.NameRules` | field/block_registry.go:45-88 | Slugs are lower-case kebab, type names exported ASCII identifiers |
| `RegistryFaithful.DeclareOneFaithful` | field/block_registry.go:239-275 | An accepted declaration has its own slug, type name, settings and bound fields, also where its slug was declared before |
| `RegistryFaithful.NewIsFaithful` | field/block_registry.go:38-65 | A new registry defines every central declaration, and those inside it, with its own content |
| `RegistryFaithful.ConfigIsFaithful` | field/block_registry.go:107-231 | A configuration that binds gives back each resource as authored, and every definition has the content of each declaration of its slug |
| `RegistryFaithful.ConflictsAreRefused` | field/block_registry.go:261-263 | Two declarations of one slug that differ are never both accepted, wherever they stand |
| `RegistrySuccess.PlainGraphsBind` | field/block_registry.go:154-278 | A graph of inline declarations with valid, unused and unrepeated names and at most 48 levels binds in every registry |
| `RegistryAgain.EqualDeclarationsAreShared` | field/block_registry.go:227-266 | What was bound once binds again later to the same: a declaration equal to an earlier one is no conflict |
| `RegistryRebind.NewAgain` | field/block_registry.go:38-98 | A fresh registry built from the interned definitions interns exactly those, in that order |
| `RegistryRebind.RebindIsIdentity` | field/block_registry.go:90-110 | A bound graph bound again by such a registry comes back unchanged, when no reference chain exceeds 48 definitions |
| `RegistryMachine.Interner.Claim` | field/block_registry.go:79-88 | The mutable registry claims type names as the function says |
| `RegistryMachine.Interner.Definition` | field/block_registry.go:114-140 | Pushing and popping the stack in place ends in the specified state and result |
| `RegistryMachine.Interner.References` | field/block_registry.go:210-226 | The loop over references ends in the specified state and result |
| `RegistryMachine.Interner.Declare` | field/block_registry.go:233-278 | The memoised interning loop ends in the specified state and result |
| `RegistryMachine.Interner.BindFields` | field/block_registry.go:142-200 | The loop over fields ends in the specified state and result |
| `RegistryMachine.Interner.BindNode` | field/block_registry.go:147-198 | Binding one container, its children and its embedded trees ends in the specified state and result |
| `RegistryMachine.Interner.Initialize` | field/block_registry.go:38-62 | Registering and then binding all central declarations ends in the specified registry or error |
| `PreviewTokens.PreviewTokenRegistry.Release` | core/preview.go:47-66 | Ending a fence drops exactly the grants that name a deleted actor or collection target and ends the epoch, and does nothing when no commit was attempted |
| `PreviewTokens.PreviewTokenRegistry.Mint` | core/preview.go:174-199 | Storing a grant conflicts in a later epoch; otherwise it drops exactly the expired grants and refuses at 64 of the actor or 4096 in all |
| `PreviewTokens.PreviewTokenRegistry.CountOf` | core/preview.go:184-189 | The loop counts the actor's grants |
| `PreviewTokens.PreviewTokenRegistry.Lookup` | core/preview.go:226-234 | A lookup finds an unexpired grant and drops an expired one |
| `PreviewTokens.PreviewTokenRegistry.Revoke` | core/preview.go:267-278 | An actor's revocation removes that actor's own grant only |
| `PreviewTokens.MintStaysBounded` | core/preview.go:179-198 | The bounds of the table survive every mint |
| `PreviewSafety.StepKeeps` | core/preview.go:47-315 | Every step of a mint, fenced delete, read, revocation or creation keeps the protocol's invariant |
| `PreviewSafety.EndFenceKeeps` | core/preview.go:49-65 | When the fence ends, no grant is left that names what it deleted |
| `PreviewSafety.StoreIsBacked` | core/preview.go:143-199 | A grant stored in the epoch its mint began in names incarnations that are still stored, and, for a transport's snapshot, the very actor that was authenticated |
| `PreviewSafety.NoGrantOutlivesItsDocuments` | core/preview.go:47-202 | In every run, whenever the lock is free, each grant's actor and target incarnations are stored and not deleted, although mints read documents without the lock |
| `PreviewSafety.TableIsBounded` | core/preview.go:14-18 | In every run the table holds at most 4096 grants and at most 64 of one actor |
| `PreviewSafety.ServeIsAuthorised` | core/preview.go:286-315 | At the last lock point of a served read the grant is stored and unexpired, its incarnations are stored, and they are the ones that were read |
| `PreviewSafety.ServedReadsAreAuthorised` | core/preview.go:96-140 | In every run a served read showed the actor and document incarnations authorised at the mint, less than five minutes after it |
| `PreviewSafety.DeletedIsForever` | core/preview.go:112-115 | A deleted incarnation is never the stored one again |
| `PreviewRuns.MintSucceeds` | core/preview.go:143-202 | From every state, a mint nothing interrupts, for stored documents and with room in the table, stores the grant for the documents it read |
| `PreviewRuns.ServeSucceeds` | core/preview.go:96-118 | From every state, a read nothing interrupts, with an unexpired grant for the stored documents, is served with the documents it read |
| `PreviewRuns.AttemptedDeleteRefuses` | core/preview.go:47-66 | Once a delete has attempted its commit, in every continuation of every run no mint that had begun stores a grant and no read whose grant it names is served, however far they had come |
| `PreviewRevocation.RevocationIsTheOwners` | core/preview.go:258-278 | A revocation by the grant's very actor removes that grant alone, by anyone else nothing |
| `PreviewRevocation.RevocationAnswers` | core/preview.go:267-278 | An absent grant counts as revoked, another actor's is refused |
| `PreviewRevocation.RevocationRuns` | core/preview.go:258-278 | An undisturbed revocation by a stored actor takes away what it owns |
| `PreviewRevocation.RevokedIsNeverServed` | core/preview.go:258-278 | In every continuation a revoked digest stands for no grant, and no later read with it is served |
| `PreviewRevocation.GrantsSurvive` | core/preview.go:47-337 | In every run a stored grant goes only by its expiry, its actor, a delete of what it names, or a retraction |
| `PreviewRevocation.RetractsOnlyStale` | core/preview.go:286-315 | A read retracts a grant only for a document that is missing or was created anew |
| `PreviewRevocation.StaleActorIsNoticed` | core/preview.go:222-256 | A read with a grant whose actor was replaced finds that out and retracts the grant |
| `PreviewRevocation.OnlyItsRequestResolves` | core/preview.go:222-237 | A token resolves for its own request alone, and only before it expires |
| `PreviewRevocation.DeleteTakesEffect` | core/preview.go:47-66 | A committed delete removes exactly its documents and the grants that name them and ends the epoch; one not attempted changes nothing |
| `PreviewRevocation.CreationStores` | core/preview.go:112-115 | A document created again is a life of its own |
| `PreviewRevocation.TransportMintSucceeds` | core/preview.go:143-202 | A mint through a transport's snapshot that nothing interrupts stores its grant for the very actor it authenticated |
| `CredentialStore.MemoryStore.ChangePasswordHash` | internal/teststore/store.go:651-664 | Replacement is a compare-and-swap on the exact hash that revokes every session and API key of the user and nothing else |
| `CredentialStore.MemoryStore.UpgradePasswordHash` | internal/teststore/store.go:666-679 | An upgrade is the same compare-and-swap without revocation |
| `CredentialStore.MemoryStore.ResetPasswordWithToken` | internal/teststore/store.go:906-934 | A reset consumes its token and replaces the hash with revocation, or changes nothing |
| `CredentialStore.MemoryStore.VerifyEmailWithToken` | internal/teststore/store.go:936-952 | Verification consumes its token and marks the credential, or changes nothing |
| `CredentialStore.MemoryStore.CreateSession` | internal/teststore/store.go:785-801 | A session is stored only while the exact checked hash is in force |
| `CredentialStore.MemoryStore.RotateSession` | internal/teststore/store.go:803-819 | Rotation moves one live record to a new digest |
| `CredentialStore.MemoryStore.CreateAPIKey` | internal/teststore/store.go:954-969 | A key is stored only while the authorising session is live and of the same user |
| `CredentialStore.MemoryStore.CreateAuthToken` | internal/teststore/store.go:891-904 | A new token replaces the user's earlier ones for the same purpose |
| `CredentialStore.MemoryStore.RecordFailedLogin` | internal/teststore/store.go:725-748 | Failures count up to the lock and start again after one; the stored credential is returned, or that there is none |
| `CredentialStore.MemoryStore.ResetLoginAttempts` | internal/teststore/store.go:750-767 | A missing credential is an error, a locked one is refused, any other is cleared |
| `CredentialStore.LockoutAfterMaximum` | internal/teststore/store.go:725-767 | Exactly the configured number of failures in a row locks the credential from the last of them, no fewer do, and while locked nothing is counted and no login resets it |
| `CredentialStore.MemoryStore.DeleteUser` | internal/teststore/store.go:2325-2344 | A hard delete removes the credential with its sessions, keys and tokens |
| `CredentialSafety.StepKeeps` | core/auth.go:272-352 | Every step of every flow keeps the invariant of sessions, keys, hashes and tokens |
| `CredentialSafety.LoginUpgradeKeeps` | core/auth.go:330-343 | Raising the cost of a hash keeps every live session and key valid for the password in force |
| `CredentialSafety.SessionsBelongToTheCurrentPassword` | core/auth.go:330-347 | In every run a live session was opened with the password now in force, checked against a hash of the current generation |
| `CredentialSafety.KeysBelongToTheCurrentPassword` | core/auth.go:577-630 | In every run an API key was created through a session of the current generation |
| `CredentialSafety.ReplacementCutsOff` | core/auth.go:523-573 | After an accepted change or reset, every live session and key of the user rests on a login that read its credential after the replacement, whatever is interleaved |
| `CredentialSafety.AcceptedReplacements` | core/auth.go:827-859 | An accepted change and an accepted reset each install a new generation for the user they name |
| `CredentialSafety.RotationKeepsTheLifetime` | core/auth.go:372-407 | In every run each live token has the absolute expiry its session began with, and a session has at most one live token |
| `CredentialSafety.RotationKillsTheOldToken` | core/auth.go:372-407 | An accepted rotation ends the old token in the step that starts the new one, and changes only the last-seen time |
| `CredentialSafety.DeadTokensStayDead` | core/auth.go:492-521 | A token that was rotated, revoked or logged out never opens a session again |
| `CredentialSafety.AuthTokensWorkOnce` | core/auth.go:827-920 | A used reset or verification token never works again |
| `CredentialRuns.LoginSucceeds` | core/auth.go:272-357 | From every state, an undisturbed login with the password in force, not locked and verified where asked, stores the session with its expiry and touches nothing else but the user's own hash and failures |
| `CredentialRuns.BarredLoginsNeverSucceed` | core/auth.go:279-308 | In every run a login that found another password, a lock or no verification, or no active user, is never admitted and stores no session |
| `CredentialRuns.WrongPasswordIsCounted` | core/auth.go:290-302 | Where lockouts are configured a wrong password is counted, and locks at the maximum |
| `CredentialRuns.LocksRunOut` | internal/teststore/store.go:725-767 | A lock that has run out starts the count again and lets the password in |
| `CredentialRuns.RotationSucceeds` | core/auth.go:374-407 | An undisturbed rotation moves the live session to its new token and touches nothing else in the store |
| `CredentialRuns.KeyCreationSucceeds` | core/auth.go:577-632 | An undisturbed creation stores the key for the session's user and nothing else |
| `CredentialRuns.ChangeSucceeds` | core/auth.go:525-573 | An undisturbed change with the current password replaces it and cuts off the user's sessions and keys only |
| `CredentialRuns.ChangeNeedsThePassword` | core/auth.go:525-573 | A wrong current password changes nothing |
| `CredentialRuns.ResetSucceeds` | core/auth.go:830-864 | An issued, unexpired reset token replaces the password once |
| `CredentialRuns.ResetNeedsItsToken` | internal/teststore/store.go:906-912 | A missing, expired or foreign token changes nothing |
| `CredentialRuns.VerificationSucceeds` | core/auth.go:902-929 | An issued verification token verifies the user once and touches no session or key |
| `CredentialRuns.FailedHooksTakeBack` | core/auth.go:351-355 | Hooks that fail after the fact take back exactly the session or key just made |
| `CredentialRuns.RefusalsChangeNothing` | core/auth.go:313-321 | A step that access rules refuse ends its call and changes nothing else |
| `CredentialRuns.DeletionTakesAll` | internal/teststore/store.go:2325-2344 | A deletion leaves nothing of the user and everything of the others |
| `CredentialRuns.CreationStoresUser` | core/auth.go:205-214 | A new user has its password in a generation of its own and starts unverified where that is asked |
| `CredentialRuns.TrashAndRestore` | internal/teststore/store.go:655-657 | A trashed user keeps everything but is not active until restored |
| `CredentialRuns.DroppingIsExact` | internal/teststore/store.go:821-826 | Logout, expiry and pruning take exactly the sessions or keys they name |
| `CredentialRuns.IssueNeedsActive` | internal/teststore/store.go:891-896 | Tokens are issued to active users only |
| `CredentialMachine.Machine.Perform` | core/auth.go:272-407 | Each step of a flow, made through the store's methods, leaves the object in the protocol's next state |
| `CredentialMachine.Machine.Play` | core/auth.go:272-1015 | After any interleaving of flows over the mutable store every session and API key it holds belongs to its user's password in force |
| `UploadProtocol.StepKeeps` | core/uploads.go:383-391 | Every step of an upload, import, save, rollback, crash or cleanup keeps the invariant of objects, locks and references |
| `UploadProtocol.NoDanglingReference` | core/uploads.go:529-540 | In every run each key that a committed document refers to is in storage |
| `UploadProtocol.UnlockedCommitDangles` | core/uploads.go:684-716 | A sample run: a reference saved without the lock between a cleanup's re-read and its deletion dangles |
| `UploadProtocol.SaveIsSafeExactly` | core/uploads.go:684-716 | In every reachable state a save, locked or not, leaves every continuation consistent exactly when its keys are stored and no other call is deleting them or may roll them back; the lock rule implies it |
| `UploadRuns.UploadSucceeds` | core/uploads.go:383-391 | An undisturbed upload leaves its object stored and named by its document, and nothing locked |
| `UploadRuns.RollbackUndoes` | core/uploads.go:383-391 | An undisturbed rollback leaves everything as if the upload had not been |
| `UploadRuns.CommitSaves` | core/uploads.go:383-391 | A commit names its keys in the document unless its unknown outcome was not applied, and touches no object |
| `UploadRuns.CleanupDeletesOrphans` | core/uploads.go:684-716 | An undisturbed cleanup deletes an orphan and lets go of a referenced key |
| `UploadRuns.ImportTakesUp` | core/uploads.go:383-391 | A stored object can be taken up under its lock and saved |
| `UploadRuns.CrashReleasesLocks` | core/uploads.go:684-716 | A crash gives up the locks of its call and leaves storage and references |
| `UploadKeys.BoundedKeys` | core/uploads.go:663-682 | The distinct nonempty keys in byte order, refused exactly above 66 |
| `UploadKeys.LessMeaning` | core/uploads.go:557-560 | Keys are compared byte by byte: a proper prefix first, otherwise the first difference decides |
| `UploadListing.OrphanCount` | core/uploads.go:521-527 | For an ordered listing the count of candidates is the size of the set of orphans |
| `UploadReconciliation.LookupReferences` | core/uploads.go:633-661 | A lookup gives the store's answer for the bounded keys, refused when it holds an unasked or repeated key |
| `UploadReconciliation.Reconciler.DeleteIfUnreferenced` | core/uploads.go:684-716 | Only keys that the second lookup, under the locks, leaves unreferenced are deleted, all of them unless it fails, and the count is theirs |
| `UploadReconciliation.Reconciler.Flush` | core/uploads.go:510-545 | A batch adds its unreferenced keys to the candidates and, in a cleanup, deletes those that are unreferenced again under the locks |
| `UploadReconciliation.Reconciler.Visit` | core/uploads.go:557-577 | One listed object is ignored, batched or refused, and a full batch is flushed |
| `UploadReconciliation.Reconciler.List` | core/uploads.go:546-587 | The page loop ends over a finite cursor space and accounts for exactly the joined listing |
| `UploadReconciliation.Reconciler.Reconcile` | core/uploads.go:491-591 | Deleted <= Candidates <= Scanned on every return; a dry run succeeds exactly on a complete, well-formed listing |
| `UploadReconciliation.ReconcileUploads` | core/uploads.go:476-591 | Candidates is the number of owned, old-enough, unreferenced keys of the joined listing wherever pages and batches end; a cleanup leaves in storage all but those still unreferenced under their locks |
| `Lowering.WalkIsFirstMeetings` | core/field_graph_runtime.go:48-83 | From any settled set of placed definitions, skipping what is placed yields exactly the first meetings of the full expansion |
| `Lowering.MetOnce` | core/field_graph_runtime.go:62-66 | Each definition is listed once and all are listed |
| `Lowering.WalkListsWhatIsReached` | core/field_graph_runtime.go:39-88 | The walk lists exactly the definitions that some chain of placements reaches, each once, in the order of their first placements in a depth-first reading |
| `Lowering.FieldBindings.Definition` | core/field_graph_runtime.go:90-102 | A definition is lowered on first use; the kept result is what lowering it again gives |
| `Lowering.FieldBindings.Walk` | core/field_graph_runtime.go:50-83 | The recursive loops gather the bindings of the walk in order, up to the first failure |
| `Lowering.FieldBindings.Resource` | core/field_graph_runtime.go:39-88 | A resource's bindings are its own followed by those of the definitions it reaches, whatever was lowered before |
| `TaskDelay.RetryDelay` | core/task.go:915-941 | The delay is exactly the promised backoff, or an override rounded up and capped, in whole milliseconds up to the maximum, without 64-bit overflow |
| `TaskDelay.Doubling` | core/task.go:928-936 | The doubling loop computes min(base * 2^(attempt-1), maximum) |
| `TaskDelay.LinearFits` | core/task.go:924-927 | Within validated bounds the overflow guard of linear backoff never fires |
| `TaskDelay.PromisedIsMonotone` | core/task.go:915-941 | A later attempt never waits less |
| `TaskDelay.PromisedIsWhole` | core/task.go:799-804 | Every promised delay is whole milliseconds between the base and the maximum |
| `TaskDelay.CeilMilliseconds` | core/task.go:955-960 | A positive duration is rounded up to the next whole millisecond, wherever one is representable; beyond the last one the sum wraps around |
| `TaskRunner.TaskWorker.Execute` | core/task.go:552-698 | An attempt asks for at most one mutation; without an error it was recorded and the outcome names it; each mutation is asked for exactly under its condition, a requeue only while attempts remain |
| `TaskRunner.Tally` | core/task.go:464-519 | Claimed is succeeded + retried + failed + released plus the attempts left running with an error, hence exactly their sum in an error-free cycle; terminal tasks are pruned after such a cycle only |
| `TaskRunner.CountsPositions` | core/task.go:488-505 | Each count is the number of attempts with that outcome, and the four outcomes together are all attempts |
| `TaskRunner.Bounds` | core/task.go:440-459 | Claims are limited to 500, leases to whole milliseconds within a day, and heartbeats fall inside the lease |
| `JsonScan.ScanOfValue` | migration/codec.go:326-387 | On the tokens of any value the scan consumes exactly that value and succeeds exactly when no object repeats a name and the root is not an array |
| `JsonScan.ScanAcceptsExactly` | migration/codec.go:310-387 | A token stream passes exactly when it is one such value |
| `JsonScan.ScanReportsFirstFault` | migration/codec.go:326-387 | The scan reports exactly the first fault in reading order, by name and place |
| `JsonScan.MalformedStreams` | migration/codec.go:326-387 | A stream that is no value is refused for its end, or for the delimiter or name out of place |
| `JsonScan.Decoder.ScanOne` | migration/codec.go:326-387 | The recursive scan over the advancing decoder gives the specified position or first error |
| `JsonScan.RejectDuplicateKeys` | migration/codec.go:310-324 | Trailing values are refused too |
| `Encodings.Base64RoundTrip` | core/upload_grants.go:175-203 | Unpadded URL-safe base64 (section 5 of RFC 4648) reads back every byte string |
| `Encodings.Base64Canonical` | core/upload_grants.go:175-203 | Encoding what was decoded gives the text back exactly when it holds no line break and sets no spare bit |
| `Encodings.UrlAlphabet` | core/upload_grants.go:175-203 | The symbols are those of the URL-safe alphabet, in its order |
| `Encodings.OnlyTheAlphabetHasValues` | core/upload_grants.go:202 | No other character has a value |
| `Encodings.DecimalRoundTrip` | core/upload_grants.go:175-200 | A positive 64-bit second count reads back |
| `Encodings.DecimalCanonical` | core/upload_grants.go:198-200 | Printing what was parsed gives the digits back exactly when there is no superfluous leading zero |
| `UploadGrant.CheckSessionID` | core/upload_grants.go:211-223 | The shape loop accepts exactly 32 hexadecimal digits and hyphens within 36 characters |
| `UploadGrant.IssuedIDsAreShaped` | core/auth.go:1148-1160 | Every issued session identifier has that shape, hyphenated or not |
| `UploadGrant.ParseSign` | core/upload_grants.go:173-207 | Parsing a signed grant gives back its session, expiry second and signature |
| `UploadGrant.SignedText` | core/upload_grants.go:173-176 | The text of a grant is its version, session, expiry and signature between dots |
| `UploadGrant.ReadExactly` | core/upload_grants.go:190-207 | Exactly which texts are read, with every bound and check |
| `UploadGrant.ParsedIsAcceptable` | core/upload_grants.go:190-207 | Only such grants are read, and two grants never share a text |
| `UploadGrant.TextIsCanonicalExactly` | core/upload_grants.go:173-207 | An accepted text is the one that signing prints exactly when its expiry starts with a nonzero digit, its signature has no line break and the last symbol's spare bits are clear |
| `UploadGrant.TextIsNotCanonical` | core/upload_grants.go:198-201 | For every grant a second text, with a sign before the expiry, is read as the same grant |
| `UploadGrant.MessageIsInjective` | core/upload_grants.go:178-188 | Different NUL-free collections and keys or different expiries are never framed as the same message |
| `UploadGrant.MessageText` | core/upload_grants.go:178-188 | The message names its purpose and ends each part with NUL |
| `Slug.NormalizeSlug` | field/slug.go:22-56 | The one-pass loop over the trimmed text computes the simple form |
| `Slug.SimpleIsSlug` | field/slug.go:18-21 | No slug starts or ends with a hyphen or doubles one, and all its characters are kept ones |
| `Slug.OneCharacter` | field/slug.go:28-46 | A letter becomes its lower case, a digit or underscore itself, anything else nothing |
| `Slug.BetweenTwo` | field/slug.go:28-46 | Between kept characters a hyphen or white space leaves one hyphen, other dropped characters nothing |
| `Slug.SlugsAreFixed` | field/slug.go:18-21 | The slugs are exactly the texts that normalising leaves alone |
| `Slug.Idempotent` | field/slug.go:22-47 | Normalising twice is normalising once |

## Left out

- Block registry diagnostics: authored paths in messages and the `declared` table that feeds them; an error is its code.
- RegistryInvariant.DeclareKeeps: inline lists are memoised by their value, not by the address of the authored list. An equal list authored twice is therefore not bound, and not depth-checked, a second time; the interned definitions are the same.
- RegistryMachine.Interner.Declare: the memo is the same, keyed by value and not by address.
- Executable callbacks, labels and settings of fields and blocks are opaque identities compared for equality.
- Embedded plugin payloads: where a plugin's JSON holds the payloads of an embedded case is a parameter of a condition's meaning.
- Drafts: nested slices of a node are values; only the draft's own backing array is modelled with its aliasing. The concrete `Edit*` refinements are one call, with the editor's test of the field as a parameter, that writes its result in place.
- Visitor errors: a walk that a visitor stops early is a prefix of the modelled one.
- Relationships: whether a reference may select a relationship depends on its cardinality in the source; the model lets references select any stored reference.
- Preview epochs are unbounded, where the source's 64-bit counter wraps after 2^64 deletes.
- Preview reads: access rules, redaction and hooks appear only as reads that may fail; every permanent delete is assumed to go through the fence (internal/operation/engine.go:3460-3488).
- Password hashing is ideal: a generated hash is new and verifies the one password it was made from. The dummy comparison for unknown users and the cost of hashing are not modelled.
- `SetPassword`, external strategies, API-key authentication and orphan clean-up are not part of the credential model; logout, expiry and pruning appear as dropping sessions or keys.
- Auth stores: the operations are those of the in-memory adapter, which the contracts in store/store.go:725-768 describe; the SQL adapters are not part of this model.
- Uploads: image processing, delivery and access; the store's promise that a commit refers to a new key only while it holds the lock of that key is an enabling condition of the commit step. Listing errors and lookup errors are parameters.
- UploadReconciliation.Reconciler.Reconcile: counts after a failed return are stated only as ordered, because the source then reports a partial count; a failed deletion leaves what it had deleted uncounted.
- Lowering of one resource's or definition's own occurrences (`lowerFieldGraph`) is a parameter; codecs and callback contexts are not part of this model.
- Tasks: goroutines, timers and heartbeats appear as what the attempt observes; error messages are dropped, and where the source joins two errors the model keeps one. Linear backoff outside validated bounds is not claimed.
- JSON: the decoder is its token stream, so lexing, number syntax and the decoder's own nesting limit are not part of this model. A scalar root passes the scan, as in the source.
- Upload grants: the MAC itself, clocks and session lookups.
- HTTP wiring, the operation engine, store adapters, schema resolution and server lifecycle.
