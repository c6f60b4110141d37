# Allod: a verified model

Allod keeps a graph as an append-only log of hashed, signed changesets. The log is replayed
("folded") into a typed graph of nodes, edges, classifications and documents. Part of that graph
describes the schema under which the next changeset is read. Changes are admitted when the policy in
force at the tip is satisfied, and regions of a graph are handed to other graphs as bundles whose
objects carry Merkle membership proofs. This project models that core in Dafny and proves what its
parts promise each other.

`dafny verify dfyconfig.toml` checks the whole project.

## What is proved, in short

* **Hashes bind what they should.** The CBOR encoder is the deterministic encoding of section 4.2.1
  of RFC 8949: shortest heads, prefix-free, injective, blind to insertion order. Domain tags,
  textual digests and the odd-promoting Merkle tree are injective in turn, so a state hash fixes
  every revision of the state and a changeset hash fixes its operations and header.
* **An accepted bundle is authentic**, end to end: peer record, checkpoint signature, log, replay, fold
  invariant, state entry, Merkle path and revision hash together tie each object to a state the issuer's log
  folds to. A bundle made from that state verifies exactly when it is addressed to the receiver and discloses nothing redacted.
* **The fold keeps its invariant** over every run, under any sequence of registries. When a changeset is
  accepted is stated operation by operation, payload by payload and rule by rule, and no update is lost: a
  write that states a superseded revision rejects its changeset.
* **The cached replay is the uncached one** on every guarded chain, and for each of the three shapes
  that a guard excludes there is a log, from its genesis on, on which the two differ.
* **Admission on HEAD never breaks replay**: folding the log after an admission gives the state
  computed at admission, on the direct and on the approval path. With a parent other than
  HEAD, what was admitted since is lost; exactly when is proved, with two runs from genesis that show it.
* **Schema documents survive both directions**: projected out of a state and loaded; compiled to nodes,
  accepted by the fold as genesis and read back. Exactly which documents survive the latter, whatever
  ids their nodes get, is proved as an equivalence.
* **The repository import is exact**, from folding the log to folding it again: exactly when its
  changeset is accepted is proved; once it is admitted, the log folds to what the commit holds, and
  importing the same contents again emits nothing.
* **The graph walks are exact**: the stack-based cycle check, the three-colour check, the term
  closure and the round-based package hashing succeed exactly when they should, and terminate.
* **Policy is what it says**: evaluation is a union, every word of a selector selects what it should, and a
  changeset is governed exactly when distinct bound principals with active keys have signed what the rules that
  fire ask for. A rejection is final among decisions. A compiled genesis is governed by the policy it was compiled with.
* **Civil dates**: the arithmetic inverts the Gregorian day count without overflow.

## How the model is laid out

| files | what they hold |
|---|---|
| `Text`, `Order`, `Utf8`, `Values`, `Graphs` | strings, sorted enumeration, document values, reachability |
| `Canon`, `Encoder`, `Hashing`, `Merkle`, `Model`, `Formats` | encoding, hashing, Merkle trees, changeset and state hashes, and what all of them are byte by byte |
| `Objects`, `Registries`, `Meta`, `Derivation`, `Fold`, `Rules`, `FoldInvariant` | folded state, schema registry and which schema a state holds, one changeset, what every run keeps |
| `References`, `Payloads`, `Operations`, `Conditions` | what references name, when payloads are valid, what each operation asks and does, what rules mean |
| `Replay`, `Installing`, `ReplayLimits`, `Store`, `Runs` | replay with the cached schema, single creates, where the cache errs, the log, and what folding it means |
| `Policy`, `Selectors`, `Quorum`, `Approvals` | requirements and what rules select, approvals and who signs them |
| `Admission`, `Finality`, `StaleParent` | admission and approval, rejections, and a stale parent |
| `Bundle`, `Disclosure` | making and verifying a bundle, and what that proves |
| `SchemaOps`, `SchemaProjection`, `SchemaCompilation`, `SchemaReadBack`, `SchemaGenesis`, `SchemaLimits`, `Compiled` | schema and policy to operations and back |
| `RepoImport`, `RepoLayout`, `RepoTarget`, `RepoApply`, `RepoAccept`, `RepoRules`, `RepoSchema`, `RepoExact`, `RepoContents`, `RepoAdmission` | the repository importer |
| `Conformance`, `TaxonomyLint`, `PackageHashes`, `Calendar` | the remaining algorithms |

Where the program changes things step by step the model does too: `Encoder.Encoder`, `Fold.State`,
`Store.Graph` and `TaxonomyLint.Linter` are classes, the loops are loops with invariants, and each
such method is tied to a function or predicate that the lemmas are about.

## Parameters and hypotheses

* **SHA-256** is a function from bytes to 32 bytes. Collision-freeness is a hypothesis on a set of
  preimages that contains those in play; the predicates `InPlay`, `StateInPlay`, `ReceivedInPlay` and
  `RedactionsInPlay` name them. No injective hash is assumed to exist.
* **Ed25519** signing and verification are functions. Soundness of bundles needs that the peer's key verifies
  only what the issuer issued, and that it issues checkpoints only of states its log folds to (`Honest`, with
  `FoldsInPlay` for their preimages); the other direction needs that the known key verifies what the issuer signs.
* **YAML text**: parsing and printing a definition are functions. `AllPrint` asks that the
  definitions compiled parse back to what was printed.
* **Ids** are minted by a function, injective (and new to the state, where it matters).
* **Ordered maps** of the importer are walked in an order given as an argument (`Walks`), so the
  results hold for every order.
* **The schema accepts the importer's payloads** (`AcceptsCode`, which the shipped code ontology
  meets), and the code subgraph is one that only the importer has written (`Laid`).
* **Logs are filed by hash** (`FiledByHash`) where the effect of an append on the chain is compared.

## Where the code differs from what one would expect

* Redacting an edge that stays live is always rejected: the envelope loses its ends and the final
  scan finds them dangling. The design text says the ends survive redaction; the model follows the
  code (`RedactedLiveEdgeRejected`).
* A bundle that discloses a redacted object never verifies, because the envelope does not hash to the
  revision that was recorded (`VerifiesExactly`, `RedactedFails`).
* Approving a proposal after HEAD has moved drops what was admitted in between, since the proposal
  keeps the parent it was built on; direct admission does not look at the parent either. The chain is
  kept exactly when the parent names the document HEAD names (`AppendFollowsParent`), and
  `StaleApproval` and `StaleArrivals` are runs that lose a changeset.
* A rejection is final only among decisions: submitting the changeset again replaces the file its decisions
  are in, so it can be decided anew (`ResubmissionReopens`).
* Replacing the intent by its hash keeps the changeset hash only if no `intent_hash` was there
  (`IntentRedactionStable`, `IntentRedactionUnstable`).
* Three kinds of operation change the schema without dropping the cached one (`ReplayLimits`).
* A rejected changeset stops `fold_to` with an error; the design text says replay skips it. The model
  follows the code.
* The second cycle guard of the stack-based walk can never fire (`NotOnPath`).
* `digest_bytes` reads upper-case digits and a plus sign in front of a digit; the model does so too.
* The attestation check does not look at the class that was asked for, nor at the attester key's
  status (`RevokedKeyAttests`).
* A package or taxonomy without elements and the order of a term stated twice do not survive
  compilation, and a taxonomy under an `ontology` key that is not a string is compiled though it is not
  loaded. Among documents that declare different owners, nothing else is lost (`ReadsBackExactly`).
* An import is rejected when an edge somebody else drew hangs on what it removes (`NothingDangles`).

## Model

| member | source | states |
|---|---|---|
| Canon.HeadDecodes | crates/allod-core/src/canon.rs:75-92 | a decoder that knows nothing of the encoder reads back major type, argument and length of every head |
| Canon.HeadIsShortest | crates/allod-core/src/canon.rs:75-92 | of all heads that carry a major type and argument, the encoder's is the shortest |
| Canon.KeyOrderIsBytewise | crates/allod-core/src/canon.rs:51-70 | map entries are ordered by the bytewise order of their encoded keys |
| Canon.PrefixFree | crates/allod-core/src/canon.rs:17-92 | no encoding is a proper prefix of another, and equal encodings come from equal values |
| Canon.Injective | crates/allod-core/src/canon.rs:17-92 | values with equal bytes are equal up to map key order |
| Formats.CanonicalIs | crates/allod-core/src/canon.rs:17-92 | the bytes of every value as RFC 8949 has them: which simple values null, false and true are, the argument of a number, text and list in order, the entries of a map by ascending key |
| Encoder.Encoder.EncodeHead | crates/allod-core/src/canon.rs:75-92 | appends exactly the specified head |
| Encoder.Encoder.Encode | crates/allod-core/src/canon.rs:17-72 | succeeds exactly on documents with a canonical form, and then appends exactly its bytes |
| Encoder.Encoder.EncodeMapping | crates/allod-core/src/canon.rs:51-70 | collecting, sorting by key bytes and appending gives the specified order of entries |
| Encoder.CanonicalCbor | crates/allod-core/src/canon.rs:11-15 | an error exactly when the document holds something without a canonical form, else the bytes of its value |
| Encoder.SameBytesSameValue | crates/allod-core/src/canon.rs:11-72 | two documents have the same bytes exactly when they denote the same value |
| Encoder.InsertionOrderIsForgotten | crates/allod-core/src/canon.rs:51-70 | listing the entries of a mapping in another order leaves the bytes alone |
| Hashing.TagInjective | crates/allod-core/src/hash.rs:59-67 | a tagged preimage determines its domain and payload, for domains without a colon |
| Hashing.RenderParses | crates/allod-core/src/hash.rs:31-81 | a rendered digest parses back to the digest |
| Hashing.HashBinds | crates/allod-core/src/hash.rs:59-67 | equal hashes mean equal domain and payload, short of a collision |
| Hashing.ValueHashBinds | crates/allod-core/src/hash.rs:170-172 | equal value hashes in a domain mean equal values, short of a collision |
| Formats.RenderIs | crates/allod-core/src/hash.rs:31-35 | a digest as text is `sha256:` and two lower-case hexadecimal digits a byte, the more significant first |
| Formats.HashText | crates/allod-core/src/hash.rs:59-67 | a hash is taken of `allod:`, the domain, a colon and the payload |
| Merkle.MerkleRoot | crates/allod-core/src/hash.rs:85-108 | the level loop computes the root of the specification, and fails with it |
| Merkle.MerklePath | crates/allod-core/src/hash.rs:111-142 | the path loop yields the sibling path of the index, and nothing out of range |
| Merkle.VerifyMerklePath | crates/allod-core/src/hash.rs:145-167 | accepts exactly the paths that climb from the leaf to the root |
| Merkle.RootOfLeaves | crates/allod-core/src/hash.rs:85-108 | the level-by-level root is the digest of the tree the leaf list stands for, odd promotion included |
| Merkle.PathReachesRoot | crates/allod-core/src/hash.rs:111-167 | the path produced for any index of any list leads from that leaf to the root |
| Merkle.PathIsShort | crates/allod-core/src/hash.rs:111-142 | a path has at most h steps whenever the list has at most 2^h leaves |
| Merkle.MembershipComplete | crates/allod-core/src/hash.rs:85-167 | every leaf of every non-empty list has a path, and it is accepted |
| Merkle.MembershipSound | crates/allod-core/src/hash.rs:145-167 | any accepted path from a leaf-domain hash proves that the leaf is in the list |
| Merkle.DigestBindsTree | crates/allod-core/src/hash.rs:85-108 | trees of any shapes with the same digest are the same tree |
| Merkle.RootBindsLeaves | crates/allod-core/src/hash.rs:85-108 | leaf lists of any lengths with the same root are equal |
| Formats.ParentText | crates/allod-core/src/hash.rs:85-108 | a parent is the hash of the digests of its children, left before right |
| Formats.SmallTrees | crates/allod-core/src/hash.rs:85-108 | the roots of one, two and three leaves, the third promoted |
| Model.PreimageDetermines | crates/allod-core/src/model.rs:32-66 | the hashed map determines the operations root, every covered field and the committed intent, and is determined by them |
| Model.ChangesetHashBinds | crates/allod-core/src/model.rs:32-77 | two changesets have the same hash if and only if they agree on operations, covered header and committed intent |
| Model.IntentRedactionStable | crates/allod-core/src/model.rs:32-66 | replacing the intent by its hash keeps the changeset hash when no intent hash was there |
| Model.IntentRedactionUnstable | crates/allod-core/src/model.rs:32-66 | with an intent hash already there, the hash changes: the condition of the previous row is exact |
| Model.ElisionStable | crates/allod-core/src/model.rs:23-77 | the hash can be recomputed from the operation leaves alone |
| Model.StateRootLoop | crates/allod-core/src/model.rs:93-106 | the Merkle root over the entries of a state, in their order; none when there are no entries |
| Model.StateHashBinds | crates/allod-core/src/model.rs:80-106 | equal state hashes mean the same keys, revisions and tombstones in both states |
| Formats.LeavesAre | crates/allod-core/src/model.rs:14-30 | a revision is the hash of the object without `rev`, an operation leaf that of the operation, each in its domain |
| Formats.ChangesetHashIs | crates/allod-core/src/model.rs:32-77 | every changeset with an operation has a hash: of the changeset with the operations root for the operations and the intent hash for the intent, and without hash and signature |
| Formats.StateHashIs | crates/allod-core/src/model.rs:80-106 | the state hash is the root over one entry an object, by kind and id, a tombstone marked as one |
| Formats.StringOrder | crates/allod-core/src/fold.rs:105-119 | strings are ordered by the first character in which they differ, a prefix first |
| Objects.FirstPrincipalIs | crates/allod-core/src/fold.rs:64-88 | the lookup yields the first listed principal of that name, and none only when none has it |
| Objects.FindPrincipalIs | crates/allod-core/src/fold.rs:64-88 | a `principal:` reference names the least live principal, in state order, of that display name |
| Objects.TermsOfMember | crates/allod-core/src/fold.rs:49-62 | the terms of a reference are those of its live classifications |
| References.BareOf | crates/allod-core/src/lib.rs:52-54 | what is left of a reference without its version |
| References.Resolves | crates/allod-core/src/fold.rs:43-46 | a reference of kind and id resolves to the live object filed under them, and to nothing else |
| References.TypeResolves | crates/allod-core/src/registry.rs:133-149 | a type resolves to the definition of that name in the package it is qualified with, or in the one it is read in |
| References.EdgeTypeResolves | crates/allod-core/src/registry.rs:151-158 | an edge type resolves to the definition in the package it is qualified with |
| References.SatisfiesIs | crates/allod-core/src/registry.rs:162-181 | one type satisfies another exactly when a line of at most 32 `extends` steps leads to it |
| References.StructIs | crates/allod-core/src/registry.rs:206-213 | a struct is the one of that name in the least package that declares it |
| References.TermsAre | crates/allod-core/src/registry.rs:105-130 | a taxonomy has the terms its document names, each with the parents its last entry gives |
| Registries.TypeSatisfiesLoop | crates/allod-core/src/registry.rs:162-181 | true exactly when the allowed type is met within 32 `extends` steps |
| Registries.TermClosureLoop | crates/allod-core/src/registry.rs:185-201 | the worklist terminates on any taxonomies, cyclic ones too, and returns the closure |
| Registries.TermClosureMembers | crates/allod-core/src/registry.rs:185-201 | a term is in the closure exactly when parents lead to it from the bare term |
| Registries.TermClosureIsLeast | crates/allod-core/src/registry.rs:185-201 | the closure is the least set that holds the bare term and is closed under parents in every taxonomy |
| Registries.NearestDeclarationWins | crates/allod-core/src/registry.rs:235-273 | an attribute is inherited exactly from the nearest type of the lineage that declares it |
| Registries.LineageFollowsExtends | crates/allod-core/src/registry.rs:235-273 | the lineage is the chain of `extends` steps without repetition, so the collection ends on cycles |
| Meta.FromStateLoop | crates/allod-core/src/meta.rs:133-380 | the accumulating loop derives the registry of the specification, errors included |
| Meta.SameMetaSameRegistry | crates/allod-core/src/meta.rs:133-380 | the derived registry depends only on the live meta nodes that are not policies, when nothing else claims the reserved package |
| Meta.ClaimFails | crates/allod-core/src/meta.rs:160-170 | such a claim makes the derivation fail whatever else the state holds |
| Derivation.DerivesExactly | crates/allod-core/src/meta.rs:133-335 | a schema can be derived exactly when every live node of a meta type has the name, package or taxonomy and the readable definition its type asks for, and no other node claims the reserved package |
| Derivation.DeclaresExactly | crates/allod-core/src/meta.rs:185-260 | it declares, under each other package and name, exactly the type, edge type or struct that the last live node giving them defines |
| Derivation.ClassifiesExactly | crates/allod-core/src/meta.rs:303-378 | its taxonomies have exactly the terms live nodes classify, each below the parents the last such node lists |
| Derivation.RulesExactly | crates/allod-core/src/meta.rs:273-301 | its rules are exactly those that live rule nodes of the package define |
| Fold.State.ApplyChangeset | crates/allod-core/src/fold.rs:127-292 | commits exactly the specified state, or reports its error and changes nothing; the rows below say what that state is |
| Operations.UpdateMeets | crates/allod-core/src/fold.rs:183-207 | an update is accepted exactly when its object is there, is not deleted, has the revision stated as `prior`, and the payload without `prior` is valid; the object is then that payload under its own revision |
| Operations.DeleteMeets | crates/allod-core/src/fold.rs:208-224 | a delete is accepted exactly on such an object, which keeps content and revision |
| Operations.CreateMeets | crates/allod-core/src/fold.rs:164-182 | a create is accepted exactly when its key was never used and its payload is valid |
| Operations.RedactionMeets | crates/allod-core/src/fold.rs:225-248 | a redaction leaves kind, id and provenance of the content, and the revision |
| Operations.OtherVerbs | crates/allod-core/src/fold.rs:249-262 | redacting an operation leaves the state alone, and any verb beyond the five is refused |
| Operations.WritesAreCurrent | crates/allod-core/src/fold.rs:152-263 | in an accepted changeset every update and delete states the revision its object has where the operation is reached |
| Operations.SilentKeeps | crates/allod-core/src/fold.rs:152-263 | what no operation is about stays as it is |
| Operations.StaleIsRejected | crates/allod-core/src/fold.rs:183-224 | a changeset whose first operation on an object states another revision than it has is rejected |
| Operations.NoLostUpdate | crates/allod-core/src/fold.rs:183-224 | of two changesets stating the same revision of one object, the second is rejected once the first has given it another |
| Operations.AppliesExactly | crates/allod-core/src/fold.rs:127-292 | accepted exactly with a good header, operations that go through one by one, live ends for every live edge, and rules that hold; the state is that of the last operation |
| Operations.BadHeaderIsRejected | crates/allod-core/src/fold.rs:128-142 | a stored hash that is not its own, or two parents, rejects a changeset whatever it does |
| Operations.Remembered | crates/allod-core/src/fold.rs:148-174 | the rules get to see every operation and every created edge, in order |
| Payloads.PayloadIs | crates/allod-core/src/fold.rs:297-388 | valid exactly: a node with each required attribute and no undeclared or ill-typed one, an edge from a live node of its domain to one of its range, a classification of something live under a known term, a document with a content hash |
| Payloads.ListTakes | crates/allod-core/src/fold.rs:390-398 | a list type takes lists of items of the item type |
| Payloads.EnumTakes | crates/allod-core/src/fold.rs:399-406 | an enumeration takes the strings between its bars, blanks around them not counted |
| References.TrimIs | crates/allod-core/src/fold.rs:390-402 | trimming takes the blanks off both ends of a text and nothing else |
| Payloads.StructTakes | crates/allod-core/src/fold.rs:407-425 | a struct asks for its required fields and for valid ones; any other name takes every value |
| Conditions.AllHolds | crates/allod-core/src/fold.rs:482-489 | `all` holds exactly when every part does, and fails at the first that fails |
| Conditions.AnyHolds | crates/allod-core/src/fold.rs:490-497 | `any` fails exactly when every part does, and holds at the first that holds |
| Conditions.NotHolds | crates/allod-core/src/fold.rs:498-500 | `not` turns its part around |
| Conditions.AttributeHolds | crates/allod-core/src/fold.rs:504-516 | an attribute is there, has the value, or has one of the values, as the condition says |
| Conditions.EdgeHolds | crates/allod-core/src/fold.rs:520-568 | an edge condition holds exactly when enough edges count: of the type, at the end the direction says, with a far end that meets its condition |
| Conditions.StateEdgesCount | crates/allod-core/src/fold.rs:520-568 | for a condition about the graph the edges counted are the live ones, each once |
| Conditions.RuleHolds | crates/allod-core/src/fold.rs:428-470 | a rule holds exactly when every node it concerns meets it |
| Conditions.RulesDecide | crates/allod-core/src/fold.rs:276-288 | a changeset that otherwise goes through is accepted exactly when each node it creates or updates meets every rule that concerns it |
| FoldInvariant.ApplyKeepsInv | crates/allod-core/src/fold.rs:127-292 | one accepted changeset keeps the invariant, every key, every tombstone and its revision |
| FoldInvariant.RunKeepsInv | crates/allod-core/src/fold.rs:127-292 | from the empty state, under any registries and changesets: live edges join live nodes, keys agree with contents, unredacted revisions are content hashes |
| FoldInvariant.RunEvolves | crates/allod-core/src/fold.rs:127-292 | over every run keys never vanish, and deleted objects stay deleted with a frozen revision |
| Replay.FoldKeepsInv | crates/allod-core/src/store.rs:497-570 | every state the uncached replay reaches keeps the invariant of where it started |
| Replay.CachedKeepsInv | crates/allod-core/src/store.rs:497-570 | so does every state the program's replay reaches, whatever its cache held |
| Store.FoldedKeepsInv | crates/allod-core/src/store.rs:489-570 | what a log folds to, in whole or up to a revision, satisfies the fold invariant |
| FoldInvariant.RedactedLiveEdgeRejected | crates/allod-core/src/fold.rs:226-278 | a changeset that leaves a redacted live edge is rejected |
| Replay.FoldChain | crates/allod-core/src/store.rs:497-570 | the loop with its cached registry computes the cached replay of the chain, up to the stop |
| Replay.UntouchedRegistry | crates/allod-core/src/store.rs:133-165 | an accepted guarded changeset that passes the invalidation test leaves the derived registry alone |
| Replay.CachedIsUncached | crates/allod-core/src/store.rs:497-570 | on every guarded chain the cached replay gives the same state or the same rejection as deriving the registry before every changeset |
| Replay.DerivedMeansUnclaimed | crates/allod-core/src/meta.rs:160-170 | a state with a derivable registry holds no foreign claim on the reserved package |
| Runs.FoldIsRun | crates/allod-core/src/store.rs:497-570 | a fold gives a state exactly when accepted changesets lead to it from the empty state, each read under the schema of the state before it, ending at the first of the named revision or at the last |
| Runs.ReadUnderIs | crates/allod-core/src/store.rs:72-165 | only a genesis that writes or deletes meta nodes is read under the schema it installs |
| ReplayLimits.RetypingDiverges | crates/allod-core/src/store.rs:133-165 | retyping a meta node: a log of genesis and two more that the program folds and the uncached replay rejects |
| ReplayLimits.RedactionDiverges | crates/allod-core/src/store.rs:133-165 | redacting a meta node: likewise |
| ReplayLimits.ClaimDiverges | crates/allod-core/src/meta.rs:160-170 | a node of another type claiming the reserved package: likewise |
| ReplayLimits.ClaimStopsReplay | crates/allod-core/src/meta.rs:160-170 | after such a claim the uncached replay accepts no further changeset at all |
| Store.Graph.AppendChangeset | crates/allod-core/src/store.rs:419-430 | files the changeset and its evidence under the hash, moves HEAD, and touches nothing else |
| Store.Graph.Chain | crates/allod-core/src/store.rs:453-478 | the chain from genesis to HEAD, oldest first, or the changeset that is missing |
| Runs.ChainIs | crates/allod-core/src/store.rs:453-478 | the chain is the one way the documents link from one without a parent to HEAD, each the parent of the next |
| Store.Graph.FoldTo | crates/allod-core/src/store.rs:489-570 | the cached replay of the chain from HEAD, up to a named revision |
| Store.AppendExtendsChain | crates/allod-core/src/store.rs:419-478 | appending a fresh changeset whose parent is HEAD extends the chain by exactly it |
| Store.ExtendsExactly | crates/allod-core/src/store.rs:419-478 | in a log filed by hash, an append extends the chain by the changeset if and only if its parent names the document HEAD names, or both are absent |
| Policy.RegionsLoop | crates/allod-core/src/policy.rs:161-164 | regions are the closures of the placing terms, joined |
| Policy.BuildContexts | crates/allod-core/src/policy.rs:91-188 | what the selectors see of each operation, classifications created in the same changeset included |
| Policy.EvaluateOp | crates/allod-core/src/policy.rs:282-324 | one operation adds exactly what its matching rules ask for |
| Policy.Evaluate | crates/allod-core/src/policy.rs:269-326 | matched rules, reviewers and attestations are exactly those of matching (operation, rule) pairs, and root is required exactly when the posture is restricted and some operation matches no rule; the rows below say what matching is |
| Selectors.ChecklistIs | crates/allod-core/src/policy.rs:269-326 | the checklist of an evaluation in terms of rules that fire: their names, the roles with the number asked for or one, the attester classes; a root when no rule fires on some operation and the posture is restricted or not stated |
| Selectors.AllSelects | crates/allod-core/src/policy.rs:192-194 | the checklist of a rule that says `all` names it exactly when that of each part would; without parts, always |
| Selectors.AnySelects | crates/allod-core/src/policy.rs:195-197 | for `any`, exactly when that of some part would; without parts, never |
| Selectors.NotSelects | crates/allod-core/src/policy.rs:198-200 | for `not`, exactly when that of its part would not |
| Selectors.WordsSelect | crates/allod-core/src/policy.rs:201-264 | without connectives, exactly when each word of the selector holds: author kind, basis, region, type, operation, imported, where, and never a substrate |
| Selectors.ContextsKnown | crates/allod-core/src/policy.rs:91-188 | what each operation carries: verb, payload, kind, basis, imports, labels, the type of the node a delete deletes, and as regions all that lie above a term that places it |
| Policy.MoreRules | crates/allod-core/src/policy.rs:269-326 | two lists of rules together ask for exactly what each asks: appending rules never removes a matched rule, reviewer or attestation, and can only lift the need for a root |
| Policy.PositiveIsMonotone | crates/allod-core/src/policy.rs:191-265 | a selector that `not` does not decide keeps matching when an operation gains regions |
| Policy.MoreOperations | crates/allod-core/src/policy.rs:91-326 | under such selectors, appending operations, new classifications included, never removes a matched rule, a reviewer or an attestation from the checklist |
| Quorum.CountRecord | crates/allod-core/src/policy.rs:649-678 | one record adds exactly the bound principals with an active key that verifies their signature on it |
| Quorum.ApproversLoop | crates/allod-core/src/policy.rs:639-679 | the approvers are exactly those of approve records for this subject and policy context |
| Quorum.ReviewersUnmet | crates/allod-core/src/policy.rs:618-688 | empty exactly when every required role has its quorum of distinct principals; every reported shortfall is a real one with the right count |
| Quorum.CheckSatisfied | crates/allod-core/src/policy.rs:757-828 | the list of unmet requirements is empty exactly when root, quorums and attestations are satisfied; every reason listed is a real one, and the notes are exactly the attesting envelopes |
| Quorum.CheckAttestations | crates/allod-core/src/policy.rs:780-825 | a class is reported missing exactly when no envelope attests to the changeset |
| Quorum.RevokedKeyAttests | crates/allod-core/src/policy.rs:780-825 | an attester whose only key is revoked satisfies any class, though its decisions never count |
| Quorum.MoreRecords | crates/allod-core/src/policy.rs:618-688 | adding records never makes a met requirement unmet |
| Quorum.RepeatsCountOnce | crates/allod-core/src/policy.rs:618-688 | any number of approvals by one principal add that principal once, and on their own meet a quorum of one and no larger one |
| Quorum.QuorumBounded | crates/allod-core/src/policy.rs:618-688 | a quorum above the number of distinct bound principals is never met |
| Approvals.DenotesIs | crates/allod-core/src/fold.rs:64-88 | who a `principal:` reference names: the least live user, agent or service of that display name |
| Approvals.AuthorKindIs | crates/allod-graph/src/ops.rs:225-232 | the kind of an author is that of the principal it names, and without one there is none |
| Approvals.ApproversAre | crates/allod-core/src/policy.rs:618-688 | who approves: a principal bound to the role, with an active key that verifies its signature on subject, policy, verdict and time of a record that approves this changeset under this policy |
| Approvals.QuorumIs | crates/allod-core/src/policy.rs:618-688 | a quorum is met exactly when that many different principals approve, each in some record |
| Approvals.AttestedIs | crates/allod-core/src/policy.rs:605-828 | what attests: an envelope that names the changeset, verified without its signature by a key of its attester, with no evidence or a trusted simulated measurement |
| Admission.ReadTip | crates/allod-graph/src/ops.rs:222-224 | state, registry and policy of the current HEAD, or none of them exists |
| Admission.Govern | crates/allod-graph/src/ops.rs:225-243 | the verdict is the policy's, and it is an error exactly when the policy cannot be evaluated |
| Approvals.GovernedIs | crates/allod-graph/src/ops.rs:222-243 | governed exactly: a known author, readable operations, the approvals every rule that fires asks for, an attestation if one does, and a root for operations no rule fires on |
| Admission.Commit | crates/allod-graph/src/ops.rs:244-247 | the changeset is applied to the tip's state and appended, or nothing is written to the log |
| Admission.AdmitOrHold | crates/allod-graph/src/ops.rs:215-269 | admits exactly what the policy is content with, files anything else as a proposal, and on an error leaves the graph as it was |
| Admission.DecideWithRecord | crates/allod-graph/src/flows.rs:473-582 | refuses a record of another shape, a missing proposal and one that a filed decision rejects; otherwise rejects, holds or admits as verdict and evidence say; each outcome changes exactly its own part of the store |
| Finality.RejectThenDecide | crates/allod-graph/src/flows.rs:473-582 | after a rejection the next decision on the proposal is an error, whatever its record says, and changes nothing |
| Finality.DecideInTurn | crates/allod-graph/src/flows.rs:473-582 | of any number of decisions in turn at most one rejects, and all after it are errors |
| Finality.ResubmissionReopens | crates/allod-graph/src/ops.rs:248-266 | submitting a rejected changeset again files it without its decisions, so it can be decided anew |
| Admission.SameUnion | crates/allod-core/src/policy.rs:269-326 | the union is unique up to order, so every evaluation asks for the same |
| Admission.CacheStaysRight | crates/allod-core/src/store.rs:497-570 | a guarded replay ends with a cache that is the registry of the state it ends in |
| Admission.AdmittedReplays | crates/allod-graph/src/ops.rs:215-269 | after an admission with a fresh hash and a parent that names HEAD, the chain is the old one plus the changeset and folds to the state computed at admission |
| Admission.GuardedExtends | crates/allod-core/src/store.rs:497-570 | a guarded changeset keeps the chain guarded, so admissions can follow one another |
| Admission.AppendFollowsParent | crates/allod-graph/src/ops.rs:215-269 | admission asks nothing of the parent: the chain grows by the changeset if and only if the parent names the document HEAD names; in general it becomes the parent's chain and the changeset |
| Admission.StaleReplays | crates/allod-graph/src/flows.rs:540-582 | the fold is then the changeset on top of the parent's state, under that state's schema: what was admitted since is gone |
| Admission.OrphanReplays | crates/allod-graph/src/ops.rs:215-269 | an admitted changeset without a parent becomes the whole chain, and is folded as a genesis |
| StaleParent.StaleApproval | crates/allod-graph/src/flows.rs:473-582 | a run from genesis: a proposal is held, another changeset admitted, the proposal approved; the chain is genesis and the proposal, and the other changeset is not in the folded state |
| StaleParent.StaleArrivals | crates/allod-graph/src/ops.rs:215-269 | two direct admissions on genesis: the second drops the first; a third without a parent leaves a log that does not fold |
| StaleParent.GovernedBy | crates/allod-core/src/policy.rs:757-828 | with one exact union at hand, the policy is content exactly when that union is satisfied |
| Admission.HashSurvivesSigning | crates/allod-graph/src/ops.rs:120-131 | adding hash and signature to a body leaves its hash alone |
| Admission.BuiltChangeset | crates/allod-graph/src/ops.rs:87-131 | a built changeset says who made it, when and why, names HEAD as its parent, and its stored hash recomputes when it is folded |
| Bundle.IsInScope | crates/allod-graph/src/fed.rs:163-166 | a node is in scope exactly when a term placed on it closes over the region |
| Bundle.ScopeNodes | crates/allod-graph/src/fed.rs:158-170 | exactly the nodes in scope, in state order |
| Bundle.SchemaNodes | crates/allod-graph/src/fed.rs:206-218 | exactly the live meta nodes outside the scope, in state order |
| Bundle.Followers | crates/allod-graph/src/fed.rs:219-241 | exactly the classifications of nodes in scope and the edges between them, in state order |
| Bundle.DisclosedKeys | crates/allod-graph/src/fed.rs:158-241 | the three passes one after the other |
| Bundle.PassesDisclose | crates/allod-graph/src/fed.rs:158-241 | together the passes disclose each object of the region and of the schema exactly once, and nothing else |
| Bundle.DiscloseOne | crates/allod-graph/src/fed.rs:173-201 | each object goes out with its content, its state entry and a path that proves it |
| Bundle.DiscloseAll | crates/allod-graph/src/fed.rs:172-241 | one such object for each key, in order |
| Bundle.MakeBundle | crates/allod-graph/src/fed.rs:129-273 | succeeds exactly for a live grant whose scope names a region, discloses exactly that region, under a signed checkpoint of the state hash |
| Bundle.PathReadsBack | crates/allod-graph/src/fed.rs:185-198 | a path written into a bundle is read back as it was |
| Bundle.VerifyBundleLoop | crates/allod-graph/src/fed.rs:306-412 | accepts exactly a bundle whose checkpoint is signed by the first root key of the first live peer record of its graph, which is addressed here or to everyone, and which proves every object to the state hash of that checkpoint; reports that key, graph, hash and number |
| Bundle.EveryObjectChecked | crates/allod-graph/src/fed.rs:370-409 | a bundle passes the object loop exactly when every object passes |
| Disclosure.RevisionBinds | crates/allod-core/src/model.rs:14-20 | equal revision hashes mean equal contents, up to a `rev` field |
| Disclosure.EntryIsInState | crates/allod-graph/src/fed.rs:388-408 | a proof to the state hash can only start from an entry of the state |
| Disclosure.AcceptedIsAuthentic | crates/allod-graph/src/fed.rs:306-412 | when the peer key verifies only checkpoints of states the issuer's log folds to, there is one such state of which every object of an accepted bundle is an object, with its entry and, up to `rev`, its content |
| Disclosure.VouchedIsFolded | crates/allod-graph/src/fed.rs:306-360 | the state hash an accepted bundle is checked against is that of a state the issuer's log folds to |
| Disclosure.BundleReads | crates/allod-graph/src/fed.rs:129-273 | what a made bundle says: its graph, the grant with its id, the checkpoint of HEAD with state hash, signer and signature, and the objects |
| Disclosure.DisclosedReads | crates/allod-graph/src/fed.rs:172-201 | what a disclosed object says: kind, id, revision and tombstone of the entry, and the content |
| Disclosure.RedactedFails | crates/allod-core/src/fold.rs:226-248 | the envelope of a redacted object never hashes to its recorded revision |
| Disclosure.VerifiesExactly | crates/allod-graph/src/fed.rs:129-412 | a bundle made from a state the issuer's log folds to verifies if and only if the grant is addressed to the receiver and no disclosed object is redacted |
| Calendar.YearOfEraIs | crates/allod-graph/src/ops.rs:60-69 | the closed formula for the year of the era is right for every day of the era |
| Calendar.CivilInverts | crates/allod-graph/src/ops.rs:60-69 | every day number gives a valid date whose Gregorian day count is that number |
| Calendar.CivilIsMonotone | crates/allod-graph/src/ops.rs:60-69 | a later day has a later date, and conversely |
| Calendar.EveryDateIsReached | crates/allod-graph/src/ops.rs:60-69 | every date from 1970 on is the date of its own day count |
| Calendar.StampOf | crates/allod-graph/src/ops.rs:52-76 | in machine integers, without overflow, the fields of a time stamp count back to the seconds given |
| Conformance.WalkParents | crates/allod-substrate/src/conformance.rs:44-75 | succeeds exactly when the ancestors are present, acyclic and at most 10,000; a reported cycle is a real one; no revision is entered twice |
| Conformance.BackEdge | crates/allod-substrate/src/conformance.rs:67-74 | a parent on the current path closes a cycle reachable from the head |
| Conformance.NotOnPath | crates/allod-substrate/src/conformance.rs:48-59 | an unfinished revision taken off the stack is never on the path |
| TaxonomyLint.Linter.VisitTerm | crates/allod-lint/src/main.rs:634-668 | finishes a white term and all white terms below it, restores the stack, and records only real cycles |
| TaxonomyLint.CheckAcyclic | crates/allod-lint/src/main.rs:624-632 | errors exactly when the local parent relation has a cycle; every chain ends in one; every term leaves white once |
| TaxonomyLint.ChainIsCycle | crates/allod-lint/src/main.rs:634-668 | a reported chain that returns to one of its terms lies on a cycle |
| PackageHashes.Round | crates/allod-vectors/src/main.rs:101-131 | one round hashes packages whose imports are settled, and makes no progress only if none is ready |
| PackageHashes.ComputePackageHashes | crates/allod-vectors/src/main.rs:93-140 | succeeds exactly when every import is loaded and no import cycle is reachable, returns the only fixed point, and otherwise leaves over exactly the other packages |
| PackageHashes.FixedPointAt | crates/allod-vectors/src/main.rs:93-140 | any fixed point agrees with the rounds, whatever order they took |
| PackageHashes.WaitingIsNotGrounded | crates/allod-vectors/src/main.rs:133-137 | a package that keeps waiting reaches a missing import or an import cycle |
| PackageHashes.FillAgrees | crates/allod-vectors/src/main.rs:114-126 | the filled document depends only on the hashes of its imports |
| PackageHashes.FixedPointIs | crates/allod-vectors/src/main.rs:114-130 | the hashes are a fixed point exactly when each is that of its document with every import carrying the hash of the package it names, and nothing else changed |
| SchemaOps.CompileSchemaOps | crates/allod-core/src/schemaops.rs:70-194 | one create operation for each element of the documents, ids in order; with a policy the last installs it under its name, and no other installs any |
| Compiled.CompiledOps | crates/allod-core/src/schemaops.rs:70-194 | the nodes created are exactly those the documents and the policy state: each type, edge type, struct and rule with its package, definition and imports, each named term with its parents and status, the policy with its name |
| Compiled.PolicyInForce | crates/allod-core/src/store.rs:331-357 | the policy in force is what the definition of the least node that installs one reads as |
| Compiled.GenesisGoverns | crates/allod-graph/src/flows.rs:104-168 | an accepted genesis compiled with a policy is governed by what that policy reads back as, one compiled without by none, whatever else it creates besides |
| Compiled.ImportedNames | crates/allod-core/src/schemaops.rs:80-91 | the imports recorded are the ontologies the import entries name |
| SchemaOps.ProjectNodesLoop | crates/allod-core/src/schemaops.rs:210-335 | groups the live meta nodes by package and taxonomy |
| SchemaOps.ProjectSchemaLoop | crates/allod-core/src/schemaops.rs:210-415 | assembles and orders the documents of a state |
| Compiled.ProjectsPolicy | crates/allod-core/src/schemaops.rs:210-415 | at most one node of a state that projects installs a policy, and the policy document is what that node defines |
| Compiled.ProjectsTerms | crates/allod-core/src/schemaops.rs:303-393 | the taxonomy documents list exactly the terms live nodes say, with their parents and statuses |
| Compiled.ProjectionOrder | crates/allod-core/src/schemaops.rs:407-426 | documents come ontologies first, taxonomies next, the policy last, and by name within |
| SchemaProjection.PackageLoaded | crates/allod-core/src/loader.rs:40-100 | a package is loaded exactly when a document declares it, as declared there |
| SchemaProjection.TaxonomyLoaded | crates/allod-core/src/loader.rs:40-100 | the same for taxonomies |
| SchemaProjection.GroupedMembers | crates/allod-core/src/loader.rs:79-100 | grouping by file name loses no document and adds none |
| SchemaProjection.SortedTermMap | crates/allod-core/src/schemaops.rs:382-393 | sorting terms by name leaves the taxonomy alone even when names repeat |
| SchemaProjection.ProjectionLoadsBack | crates/allod-core/src/schemaops.rs:210-415 | loading the projected documents gives the registry derived from the state, short of the seeded meta package |
| SchemaCompilation.RecordAbsorbs | crates/allod-core/src/meta.rs:133-380 | reading one compiled node records exactly the element it was compiled from |
| SchemaCompilation.InstalledByFold | crates/allod-core/src/schemaops.rs:70-194 | accepted on any state, the operations add exactly the compiled nodes to it |
| SchemaCompilation.ReadBack | crates/allod-core/src/meta.rs:133-380 | the registry read back is assembled from exactly the compiled elements, in some order |
| SchemaReadBack.OwnedByDoc | crates/allod-core/src/schemaops.rs:70-194 | what a document owns of all compiled elements is exactly its own, in order |
| SchemaReadBack.SlotAbsorbed | crates/allod-core/src/meta.rs:133-380 | a definition is recorded exactly where an element put it, and as it put it |
| SchemaReadBack.CompiledReadsBack | crates/allod-core/src/schemaops.rs:70-194 | compiling documents that survive and reading the nodes back gives the registry the documents load, up to rule order, import order and repetition, empty sections and the meta package |
| SchemaGenesis.CompiledApplies | crates/allod-core/src/fold.rs:150-270 | on any state, under ids new to it, the operations go through exactly when every term states a known status or none |
| SchemaGenesis.CompiledInstalls | crates/allod-core/src/fold.rs:127-292 | under a schema that keeps the meta package, compiled documents are accepted exactly when every term states a known status or none and the rules hold; rules about other types always do |
| SchemaGenesis.GenesisInstalls | crates/allod-core/src/store.rs:72-130 | a genesis of compiled documents is read under the registry those documents load, accepted exactly in that case, and leaves a state from which that registry is derived |
| SchemaLimits.EmptyPackageIsLost | crates/allod-core/src/schemaops.rs:70-194 | a package whose document has no elements is loaded, but is gone when the nodes are read back |
| SchemaLimits.EmptyTaxonomyIsLost | crates/allod-core/src/schemaops.rs:159-181 | so is a taxonomy without named terms |
| SchemaLimits.EmptyMetaIsLost | crates/allod-core/src/meta.rs:133-380 | an empty document for the reserved package replaces the seeded one when it is loaded, and not when it is compiled |
| SchemaLimits.StrayTermsAppear | crates/allod-core/src/schemaops.rs:159-181 | terms under an `ontology` key that is not a string are not loaded, but are there when the nodes are read back |
| SchemaLimits.TermIsLost | crates/allod-core/src/schemaops.rs:159-181 | whenever a taxonomy states a term twice with other parents, some distinct ids make it read back with other parents than it loads |
| SchemaLimits.ReadsBackExactly | crates/allod-core/src/schemaops.rs:70-194 | documents with an owner each round-trip under all distinct ids if and only if every loaded one has elements, no other one has, and no taxonomy states a term twice with other parents |
| RepoImport.IndexStateLoops | crates/allod-graph/src/repo.rs:179-302 | the four passes build the index of the specification |
| RepoImport.DiffCommit | crates/allod-graph/src/repo.rs:402-603 | the loops, with the id tables they hand on, emit the operations of the plan for any walk order of the ordered maps |
| RepoImport.FileLoop | crates/allod-graph/src/repo.rs:423-466 | one turn per file: updated when its blob moved, created with its edge when new; every file gets an id |
| RepoImport.ItemLoop | crates/allod-graph/src/repo.rs:468-521 | one turn per item: updated when its content differs, created with its edge to the file's id when new |
| RepoImport.CallLoop | crates/allod-graph/src/repo.rs:523-544 | exactly the wanted calls that are not there yet are created |
| RepoImport.GoneCallLoop | crates/allod-graph/src/repo.rs:545-553 | exactly the calls no longer wanted are deleted |
| RepoLayout.IndexAgrees | crates/allod-graph/src/repo.rs:179-302 | the index finds exactly the code objects of the state, each under its path, item or call |
| RepoTarget.TaskOpsAreSlots | crates/allod-graph/src/repo.rs:402-595 | each turn of a loop makes, remakes, drops or leaves alone exactly the objects it is about |
| RepoAccept.SlotsApply | crates/allod-core/src/fold.rs:150-270 | those operations are accepted one after the other, with the intended effect |
| RepoExact.PlanWorks | crates/allod-graph/src/repo.rs:402-603 | the plan handles each object once, ends before edges, and leaves no change out |
| RepoExact.TargetLaid | crates/allod-graph/src/repo.rs:402-603 | the code graph afterwards is laid out as the commit says |
| RepoExact.IndexIsExact | crates/allod-graph/src/repo.rs:179-302 | the index afterwards holds exactly the commit's files, items and calls |
| RepoExact.NothingDangles | crates/allod-core/src/fold.rs:257-278 | an import leaves a live edge dangling if and only if a live edge of other origin hangs on something it removes |
| RepoExact.ImportIsExact | crates/allod-graph/src/repo.rs:402-603 | the fold accepts the changeset of an import if and only if no such edge exists and the installed validation rules hold of it; the index then holds exactly what the commit holds |
| RepoExact.ImportIsAccepted | crates/allod-core/src/fold.rs:277-285 | under a schema without rules on code types, whatever other rules it has, such edges alone decide |
| RepoExact.ShippedImportIsAccepted | crates/allod-graph/src/repo.rs:402-603 | the shipped code ontology is such a schema for every import of what the scanner finds |
| RepoSchema.ShippedAcceptsCode | ontologies/code/ontology.yaml:13-50 | every registry that holds the shipped ontology validates all the nodes and edges an import writes |
| Rules.OpsPass | crates/allod-core/src/fold.rs:428-470 | rules about other types have no objection to operations on nodes of given types |
| RepoExact.ExactEmitsNothing | crates/allod-graph/src/repo.rs:402-603 | a commit the graph already holds emits nothing |
| RepoExact.SecondImportIsIdle | crates/allod-graph/src/repo.rs:402-603 | importing the same contents once more emits nothing, even from another commit |
| RepoExact.NothingImportedYet | crates/allod-graph/src/repo.rs:179-302 | a state without code objects is ready for a first import |
| RepoContents.SettledHolds | crates/allod-graph/src/repo.rs:402-603 | a state whose index is the commit holds a node for each file, function and type that says its path and blob, signature and span, or kind, in the repository and declared by its file; an edge for each call; and no other code nodes |
| RepoContents.CallsAreCommits | crates/allod-graph/src/repo.rs:523-553 | and no other calls |
| RepoContents.ImportHolds | crates/allod-graph/src/repo.rs:402-603 | an accepted import leaves such a state |
| RepoContents.NewNodes | crates/allod-graph/src/repo.rs:404-466 | a new repository is created with name and origin, a new file with path, blob and language |
| RepoAdmission.ImportIsGuarded | crates/allod-core/src/store.rs:133-165 | no operation of an import escapes the cache's invalidation test |
| RepoAdmission.ImportAtTip | crates/allod-graph/src/repo.rs:332-610 | at any tip of a log, the acceptance of an import is decided by attached edges and rules alone |
| RepoAdmission.ImportReplays | crates/allod-graph/src/repo.rs:332-610 | once an import is admitted on HEAD, the log folds to the state it aimed at, whose index is exactly the commit, and the chain stays guarded |
| RepoAdmission.ReimportIsIdle | crates/allod-graph/src/repo.rs:332-610 | comparing what the log then folds to with the same contents emits nothing |
| RepoAdmission.ImportCommit | crates/allod-graph/src/repo.rs:332-610 | folds, indexes, compares, builds and admits or holds; an admitted import leaves a log that holds the commit, any other leaves the log alone |

## Left out

- FoldInvariant.RunKeepsInv: says nothing of edge domain and range typing, of classification subjects or of validation rules, because the fold does not keep them.
- Replay.CachedIsUncached: asks for a guarded chain. Each of the three clauses of the guard is shown to be needed by a chain that breaks it, but a chain may break it and still replay alike.
- Admission.AdmittedReplays: asks that the parent names HEAD; `AppendFollowsParent`, `StaleReplays` and `OrphanReplays` say what happens otherwise.
- PackageHashes.ComputePackageHashes: import entries that are mappings must name an ontology, since the program stops with a panic on others.
- Fold.State.ApplyChangeset: an operation with several verb keys is rejected; the program takes the first in insertion order, which a value that forgets that order, like the canonical bytes, does not have.
- Fold.State.ApplyChangeset: failures met while walking a hash map share one message, since which of them comes first is not fixed.
- SchemaReadBack.CompiledReadsBack: no two documents declare the same package or taxonomy; given that, `ReadsBackExactly` shows its other conditions to be exact.
- SchemaGenesis.GenesisInstalls: acceptance is stated for documents that leave the meta package alone and declare no struct called `string`.
- SchemaOps.CompileSchemaOps: the elements of a section come in name order rather than file order.
- SchemaProjection.ProjectionLoadsBack: load issues are not part of the result.
- Registries.TypeSatisfiesLoop: structs of the same name in several packages resolve in the least package.
- RepoImport.DiffCommit: the line scanner and the call finder are left out; files, items and calls are inputs, and minted ids are a function of what they are minted for.
- Store.Graph.FoldTo: failures of the document store are not modelled; documents read back as written.
- Calendar.StampOf: the textual form of the fields is left out.
- Conformance.WalkParents: the properties of the conformance check other than the parent walk are left out.
- TaxonomyLint.CheckAcyclic: building the term table from the document is left out.
- Floats, tagged values and non-string keys exist only as inputs the encoder rejects.
- Merge changesets and `resolve`, which the fold rejects.
- Key files, the keychain, git, the command line, the WASM and markdown bridges, clocks and UUID sources.
- `flows::verify`, which replays governance under the tip's registry.
- Git policy evaluation, `glob_match`, `semantic_diff`, `schema_state_hash` and the import that follows bundle verification: they would add easy members.
- The linter's other checks, and every error text beyond the kind of failure.
