# Path Authority: a verified model

Path Authority decides whether a network path may be used. It holds versioned authority records, evaluates candidate
paths against evidence that other systems own, lets remote evaluators publish their decisions to a coordinator, and
withdraws authority when the evidence behind it moves. This project models that logic in Dafny and proves what it
promises.

## Layout

| files | content |
|---|---|
| `Base`, `Ordering`, `Model` | shared types: paths, constraints, policy, evidence entries, outcomes; the order of maps and sets |
| `Evidence` | the sorted evidence vector as a map, and the merge diff |
| `Requirements`, `Rules` | tri-state requirement trees; the effective rules of a constraint set under a policy |
| `PathShape` | structural validation of a path |
| `RuntimeState`, `Digests` | the authority state and every operation on it, as functions on values; what the content digests cover |
| `RuntimeRuns`, `RuntimeIndexes`, `Watermarks`, `InvalidationBatches`, `GenerationDigests` | what every step keeps, over all runs |
| `Attempts` | the bounded log of attempt ids |
| `Gates` | the checks before a commit, a revocation or a retirement, each with the outcome of its failure |
| `Publication`, `Recovery`, `Reauthorization`, `Authority`, `LastGeneration`, `Interleaving` | published decisions, restarts, whole operations, two-step operations |
| `Views`, `Findings`, `Legality`, `Resolution`, `ExplanationBound`, `Reads`, `Evaluation`, `Chains`, `UnnamedDomain` | the staged evaluation, the declarative legality it decides, the evidence it binds |
| `Grounds`, `FirstRefusal`, `Bindings` | the checks in order and their grounds; which one decides the outcome; what is consulted and bound |
| `Collectors`, `Evaluator`, `AuthorityRuntime` | the objects that are updated in place, each proved to have the effect of its specification |
| `Currentness`, `ViewChanges`, `Distribution` | query against evaluation; evaluator and coordinator |
| `StoreImages` | what is written for a durable state, when writing is refused, and what is read back |
| `Coordinator`, `CoordinatorImages`, `CoordinatorSafety`, `CoordinatorEdges`, `CoordinatorStore`, `CoordinatorProcess`, `Acceptance` | workers, fences, images and restarts as messages; the process object |
| `Scenarios`, `StoreScenarios` | the concrete paths, sets and decisions that the inputs below are made of |
| `Sha256`, `HashConstants`, `Bytes`, `PathCodec`, `RequirementCodec`, `ConstraintCodec`, `DurableCodec` | the hash and the canonical encodings |

## How it is modelled

- A runtime is a value with records, indexes, constraint sets, attempts and watermarks. `RuntimeState` says what each
  operation does to it; the class in `AuthorityRuntime` does it in place and is proved equal. The four index maps are
  one map whose key names the index.
- A run is a list of steps. Each step is one critical section, so an evaluation is a read and a later commit with
  anything in between, and a registration is two sections. `Authority` treats whole operations instead.
- A digest is a constructor over the fields that are hashed, which makes it injective; the codes that the original sorts
  are a multiset. `Sha256` and the codecs use real bytes.
- The views of an evaluation are read at one instant. Epoch, policy, views and the coordinator's control epoch are inputs.
- What the coordinator stores is an image: the durable state and the history lists. Writing it is refused where the
  encoder refuses it, and a restart recovers what decoding its encoding gives (`WritableMeaning`, `ReadIsDecode`).
- A violation has a code, a severity and a subject. Lists are in stage order.
- An exception that leaves the state alone is a result value; one that the original throws half-way is named below.

## Where the code does less than its documentation or its callers may expect

Each of these is kept as it is in the model, and an if-and-only-if says when it happens. Where it takes a run or an
evaluation to get there, a concrete one is given.

- Commit looks at neither revocation, retirement nor the registered set (`UnexpectedCommitOverwritesRevocation`,
  `RevokedAuthorityIsReachable`; `LateCommitBindsTheOldSet`, `OutdatedAuthorityIsReachable`); an expected generation
  closes the race (`ExpectedGenerationProtects`).
- At the last generation marking does nothing (`ExhaustedAuthorityOutlivesItsSet`, `ExhaustedAuthorityIsReachable`) and a
  refused commit takes the path out of the indexes (`RefusalAtTheEndUnfiles`).
- Evidence that is not filed under the key an invalidation consults is not protected (`CoverageDecidesMarking`); domains
  that no constraint names are such evidence (`DomainNoticeReachesNamedDomains`, `DomainChangesUnnoticed`).
- `invalidate_constraints` announces a subject that no evidence uses (`ConstraintNoticeMarksEverything`).
- The underlying chain reports its far end (`ChainResolvesToItsLastRecord`, `DeeperChainIsReported`).
- README.md:152 of the repository ties the generation to the digest; three kinds of steps advance it under the digest
  that is there (`GenerationFollowsDigest`, `RevokingTwice`, `RetiringAPublishedRetirement`, `RepeatingAPublication`).
- Import keeps digests that no longer match (`RecoveredDigestMatches`). README.md:168-169 of the repository says that an
  invalidated path may be authorized again; the decision that was on record before is taken for a replay instead
  (`ReauthorizationAfterRestart`, `SameEvaluationAfterRestart`, `RecoveredPathStaysWithdrawn`).
- README.md:171-173 of the repository promises a conflict for an attempt id that is used again with other input; the
  bounded log forgets ids (`ReuseConflictsExactly`, `ForgottenAttemptIsAccepted`).
- An evaluator sends its replays in a form that every coordinator refuses (`UncommittedIsNeverAccepted`,
  `ReplayIsRefusedEverywhere`).
- When no layer is permitted every layer is (`LayerRuleIsIntersection`).
- src/constraints.cpp:470-471 of the repository says that sets which differ only in construction order are identical;
  members that the order does not tell apart show theirs (`ConstraintDigestIsContent`, `ConstructionOrderCanShow`).
- A small explanation bound can hide a condition (`VerdictUnderBound`, `SmallBoundHidesACondition`).
- A constraint set with an unnamed failure domain does not survive its own encoding (`ConstraintSetRoundTrip`).
- A boot that publishes under two names escapes its loss (`AuthorityOutlivesTheConnection`, `SecondNameEscapesTheLoss`).
- The coordinator accepts and stores what its decoder refuses, and then does not start (`RestartFailsExactly`,
  `DecodesExactly`): a path over one that is not stored (`AbsentUnderlyingBlocksTheRestart`), more fences than the limit
  (`TooManyFencesBlockTheRestart`), a set with an unnamed failure domain (`UnnamedDomainBlocksTheRestart`).
- An image that the encoder refuses is not written, and what was acknowledged with it is forgotten by a crash
  (`LostFenceSurvives`, `AcknowledgedBootSurvives`, `RefusedWriteForgetsTheFence`).
- Path ids are not stored: a path under another name than its content determines changes its name over a restart
  (`NameIsKept`, `RestartRenamesThePath`).
- A boot lost when the fence set is full is not fenced (`LostBootsAreFenced`, `AcknowledgedBootIsNotFenced`).

## Model

| member | source | states |
|---|---|---|
| Watermarks.AuthorityIsNeverOutdated | src/runtime.cpp:1000-1024 | From an empty runtime, after any interleaving of steps, an authorizing record below the last generation binds, for each subject it is filed under, a generation no lower than any announced for that subject |
| Interleaving.ComputedAuthorityIsNeverOutdated | src/runtime.cpp:1292-1370 | The same for evidence computed by an evaluation that read and committed in separate steps: scalars, own elements, ports, links, underlying path, own memberships, and capabilities when the requirements on record are those that were read |
| Watermarks.WatermarkIsHighestAnnouncement | src/runtime.cpp:1009-1014 | After any run a watermark is the highest of its old value and the generations announced for its subject |
| Watermarks.SubjectFixesTarget | src/runtime.cpp:2111-2188 | An evidence subject determines the index bucket that every invalidation of that subject consults |
| Watermarks.CoverageDecidesMarking | src/runtime.cpp:1292-1325 | An announcement of another generation for a bound subject changes the record if and only if the record is filed under the key that the announcement consults |
| Watermarks.UnfiledEvidenceIsNotProtected | src/runtime.cpp:1292-1325 | Evidence of a record that is not filed: the watermark rises past it and the record still authorizes |
| UnnamedDomain.DomainNoticeReachesNamedDomains | src/runtime.cpp:2149-2155 | After any evaluation that leaves its path authorized: a notice for a domain of one of its hops withdraws the authority if and only if a constraint of the set names the domain |
| UnnamedDomain.DomainChangesUnnoticed | src/runtime.cpp:2149-2155 | Concrete: the evaluation of a covered path commits as authorized, its domain moves to generation two, and the record stays as it was |
| UnnamedDomain.DomainIsBound | src/runtime.cpp:594-608 | Without overflow every domain of every hop is bound as evidence once the failure-domain stage runs |
| Watermarks.UnnamedDomainIsNotFiled | src/runtime.cpp:1081-1085 | A bound domain generation is filed if and only if some constraint names the domain |
| Watermarks.ConstraintNoticeMarksEverything | src/runtime.cpp:2176-2180 | Constraint evidence is announced under the set id but bound under "self": the announcement spares an unmarked record if and only if the id is "self" and the record binds the announced generation |
| Watermarks.StepGuarded | src/runtime.cpp:1000-1095 | Every step keeps the watermark, index and consistency invariants together |
| Watermarks.CommittedNotStale | src/runtime.cpp:1363-1384 | A commit that writes had no stale evidence and a matching expected generation |
| Reads.ComputedEvidenceIsCovered | src/runtime.cpp:1065-1095 | Every entry an evaluation computes, other than failure-domain entries, is filed by the dependency lists that commit rebuilds, whatever set is registered then; capabilities when the lists still name them |
| Reads.OwnMembershipIsCovered | src/runtime.cpp:2157-2164 | Membership evidence of a path element is filed under the element |
| Reads.EvidenceIsOfKind | src/runtime.cpp:372-384 | Each bound entry is a scalar, one of the path's elements, its underlying path, a required capability, or a failure-domain entry |
| Interleaving.CapabilitiesFiledUnderTheSameSet | src/runtime.cpp:1076-1080 | Committing under the set and policy that were read files every capability that was read |
| RuntimeRuns.GenerationsIdentifyRecords | src/runtime.cpp:1232-1247 | Over any run a generation never falls, rises by at most one per step, and one generation of a path identifies one record in every field |
| RuntimeRuns.StepAdvances | src/runtime.cpp:1386-1443 | No step removes a record; a record that changes moves to exactly the next generation, and a new one starts at one |
| RuntimeRuns.RunSound | src/runtime.cpp:183-201 | After any run every record's digests are their recomputation from its own fields, and its state is the one of its outcome |
| GenerationDigests.GenerationFollowsDigest | README.md:152 | For every step on a sound record: the generation advances under an unchanged digest, or otherwise than the digest changes, exactly when the step is an applied revocation of a REVOKED record, an applied retirement of a RETIRED one, or a writing decision with an equal digest |
| GenerationDigests.RevokingTwice | src/runtime.cpp:1982-2024 | Concrete: two revocations for different reasons take two generations under one digest |
| GenerationDigests.RetiringAPublishedRetirement | src/runtime.cpp:2049-2109 | Concrete: a published PATH_RETIRED decision and then a retirement |
| GenerationDigests.RepeatingAPublication | src/runtime.cpp:1386-1396 | Concrete: with idempotent_replay off the same checked publication takes a generation each time |
| RuntimeRuns.CommitOutcomes | src/runtime.cpp:1348-1413 | Exactly when a commit writes, replays or refuses; a refusal changes nothing but the indexes at the last generation, a replay nothing but the attempt log |
| RuntimeRuns.CommitRecords | src/runtime.cpp:1398-1437 | A commit replaces exactly the record of its path, by the request at the next generation, keeping revocation and retirement |
| RuntimeRuns.RegistrationIsStoreSet | src/runtime.cpp:1537-1579 | The two critical sections of a registration, run without interruption, store the set and mark exactly the records that bind another generation of it |
| RuntimeRuns.RememberTracks | src/runtime.cpp:1249-1262 | The attempt log stays within its bound, holds each id once, agrees with its map, and remembers the id it was just given |
| Attempts.ReuseConflictsExactly | src/runtime.cpp:1677-1685 | An id enters the log with an input and other steps follow: using it again is a conflict if and only if the input is another one and fewer ids than max_outstanding_attempts have entered since |
| Attempts.RememberedExactly | src/runtime.cpp:1249-1262 | Over any run that does not use it, an id at a given place of the log is still there with its input if and only if the ids that entered do not push it out |
| Attempts.StepLog | src/runtime.cpp:1249-1262 | Along every step the log loses its oldest id exactly when a committed or replayed decision enters another one into a full log, and no other entry changes |
| Attempts.ForgottenAttemptIsAccepted | src/runtime.cpp:2507-2515 | Concrete: a second publication under one id is a conflict that changes nothing, and is committed when another id was used in between |
| RuntimeIndexes.RunAgrees | src/runtime.cpp:1027-1063 | In every reachable state the indexes hold no empty bucket, every filed path depends on its key, and every dependency of a record below the last generation is filed |
| RuntimeIndexes.IndexesAreInverse | src/runtime.cpp:925-943 | With no exhausted generation each bucket is exactly the set of paths that depend on its key, and empty keys do not exist |
| RuntimeIndexes.InvalidationIsScan | src/runtime.cpp:1292-1325 | An indexed invalidation has the effect of a scan of all records, leaves the others alone, and with no exhausted generation reports the same records |
| RuntimeIndexes.ExhaustedAgrees | src/runtime.cpp:1399-1413 | The refusal at the last generation takes the path out of the indexes and keeps the invariant |
| RuntimeIndexes.RefusalAtTheEndUnfiles | src/runtime.cpp:1399-1413 | Of a path on record, RESOURCE_LIMIT comes back if and only if its generation is the last and no other guard applies; exactly then the path leaves every bucket, and any other refusal changes nothing |
| InvalidationBatches.BatchIsASet | src/runtime.cpp:1267-1325 | Batches of invalidations with the same members, in any order and multiplicity, leave the same runtime |
| InvalidationBatches.BatchIsIdempotent | src/runtime.cpp:1232-1247 | Repeating a batch in any order changes nothing |
| InvalidationBatches.BatchOnRecord | src/runtime.cpp:1232-1247 | A batch marks a record once, exactly when some member finds it and announces a generation it does not bind |
| Interleaving.ExpectedGenerationProtects | src/runtime.cpp:1372-1384 | A decision that expects a generation read earlier commits only if the record is unchanged from the read, through the checks, to the commit, and what it writes is neither revoked nor retired |
| Interleaving.ExpectedEvaluationProtects | src/runtime.cpp:1690-1792 | The same for an evaluation whose checks and commit are separate steps |
| Interleaving.StaleExpectationIsRefused | src/runtime.cpp:1372-1384 | An expectation that no longer holds is refused and changes nothing |
| Interleaving.SameGenerationSameRecord | src/runtime.cpp:1386-1443 | Seeing one generation twice, any steps apart, means that the record is the same or still absent |
| Interleaving.UnexpectedCommitOverwritesRevocation | src/runtime.cpp:1348-1396 | An authorizing decision overwrites a revocation that came after its checks if and only if its evidence is not stale, an expected generation matches the revoked one, and a generation is left |
| Interleaving.RevokedAuthorityIsReachable | src/runtime.cpp:2401-2575 | Concrete inputs for that race: both publications pass every check, and the revoked path ends up authorized |
| Interleaving.LateCommitBindsTheOldSet | src/runtime.cpp:1537-1579 | A checked authorizing decision that commits after another generation of its set was registered leaves the path authorizing under the old one if and only if the guards of commit let it write |
| Interleaving.OutdatedAuthorityIsReachable | src/runtime.cpp:1537-1579 | Concrete inputs for that race |
| Authority.OperationsKeepAuthorityClean | src/runtime.cpp:1664-1706 | With whole operations, restarts included, an authorizing record has no revocation, is not retired, is in the state of its outcome, and binds the registered generation of its set while its own generation can advance |
| Authority.BarredNeverAuthorizesAgain | src/runtime.cpp:1947-2109 | After a revocation or retirement no sequence of whole operations, restarts included, removes the mark or makes the path authorize |
| Authority.EvaluateIsAnOperation | src/runtime.cpp:1632-1809 | An atomic evaluation is a checked decision or changes nothing |
| Authority.PublishIsAnOperation | src/runtime.cpp:2401-2575 | An atomic publication is a checked decision or changes nothing |
| Authority.ExhaustedAuthorityOutlivesItsSet | src/runtime.cpp:1236-1238 | An authorizing record outlives the registration of another generation of its set if and only if its own generation is the last |
| LastGeneration.ExhaustedAuthorityIsReachable | src/runtime.cpp:1232-1247 | Concrete: a run of whole operations from an empty runtime that reaches such a record, and the registration it survives |
| LastGeneration.WearsOut | src/runtime.cpp:1232-1443 | A topology notice and a publication take two generations, round after round, up to the last |
| Publication.PublishIsChecked | src/runtime.cpp:2401-2510 | A published decision that reaches commit has matching digests and state, canonical evidence of the current epoch and policy, and its path was neither revoked nor retired and bound the registered set |
| Gates.PublishByGates | src/runtime.cpp:2401-2518 | publish_decision goes on to commit exactly when shape, state, evidence, registered set, asserted and bound epoch, policy generation, the three digests, standing and attempt id all pass; otherwise it answers with the first of them that fails, in this order |
| Gates.PublishAnswers | src/runtime.cpp:2401-2575 | The same with the checks of commit: accepted exactly when all pass, answered with the first that fails, a replay exactly when the record on file has the digest |
| Gates.ReadyRequest | src/runtime.cpp:2518-2536 | What is handed to commit is the decision as it was sent, under the recomputed digest of its input |
| Gates.EvaluateByGates | src/runtime.cpp:1632-1718 | evaluate reads evidence exactly when shape, registered set, attempt id, retirement, asserted epoch, revocation and underlying chain pass; otherwise it answers with the first that fails |
| Gates.RevalidateByGates | src/runtime.cpp:1907-1944 | revalidate checks the definition on record under its own identity rule with no epoch asserted; where a check fails it changes nothing and answers with the first |
| Gates.CommitByGates | src/runtime.cpp:1348-1413 | Commit writes, replays or refuses by its four checks, with the outcome of the first that fails |
| Gates.ShapeByGates | src/path.cpp:197-291 | The reported shape status is that of the first rule that the path breaks, hop by hop where it is about hops |
| Gates.RevokeByGates | src/runtime.cpp:1947-1999 | revoke applies or repeats exactly when its checks pass, repeats exactly when the same revocation is on file, and otherwise answers with the first failing check |
| Gates.RevokeWrites | src/runtime.cpp:2000-2047 | Only an applied revocation changes anything: the standing, revocation and generation of its one record |
| Gates.RetireByGates | src/runtime.cpp:2049-2109 | retire applies or repeats exactly when its checks pass, and changes the standing and generation of its one record |
| Evaluation.EvaluateIsChecked | src/runtime.cpp:1632-1776 | An evaluation that reaches commit has the same properties and binds exactly the evidence it read |
| Recovery.RecoveryAuthorizesNothing | src/runtime.cpp:2376-2392 | Importing any image leaves no record in an authorizing state and keeps every revocation and retirement |
| Recovery.RestartConsistent | src/runtime.cpp:2358-2397 | Export then import of a consistent runtime authorizes nothing in state or outcome and is consistent again |
| Recovery.ExportImportKeeps | src/runtime.cpp:2251-2398 | Export then import brings back every record and no other, with its definition, evidence, digest, revocation, retirement and publisher, and in its own state and generation unless its authority was live |
| Recovery.ImportableMeaning | src/runtime.cpp:2282-2384 | An image imports if and only if it passes the checks made before anything is replaced and no live record is at its last generation |
| Recovery.ImportFailsExactly | src/runtime.cpp:2282-2384 | An import fails if and only if the image has no epoch, too many records, or a set or record that breaks one of the listed rules, a live record at its last generation among them |
| Recovery.ImportAgrees | src/runtime.cpp:2343-2397 | Import rebuilds the indexes as the exact inverse of the dependency lists |
| Recovery.RecoveredDigestMatches | src/runtime.cpp:2366-2393 | Import keeps the stored digest; it is the recomputation if and only if recovery left the state alone, there were no secondary violations, and the set content is the one that was digested |
| Recovery.LiveAuthorityLosesItsDigest | src/runtime.cpp:2366-2393 | An authorizing record comes back with a digest that its own fields do not give |
| Reauthorization.ReauthorizationAfterRestart | src/runtime.cpp:1386-1396 | After export and import an authorizing decision leaves the path unauthorized if and only if commit refuses it, or idempotent replay is on and the decision is the one on record before the export in everything the digest covers; the record is then untouched |
| Reauthorization.SameEvaluationAfterRestart | src/runtime.cpp:1719-1776 | A path without underlying path and peers, evaluated, exported, imported and evaluated again in the same world: authorized again if and only if replays are off, no watermark stands above its evidence and its generation can advance; with replays on the answer is IDEMPOTENT and the record stays as it was recovered |
| Reauthorization.RecoveredPathStaysWithdrawn | src/runtime.cpp:2366-2393 | Concrete: evaluation, export, import and the same evaluation, which answers IDEMPOTENT while the path requires revalidation |
| Recovery.RecoverRecord | src/runtime.cpp:2376-2393 | Every state but rejected, revoked and retired becomes REVALIDATION_REQUIRED at the next generation, and those keep state, outcome and generation; digests of path and set and the dependency lists are recomputed, violations are gone, all else is as stored |
| Evaluation.DecisionIsLegality | src/runtime.cpp:358-881 | For a well-shaped path without evidence overflow, under limits like the defaults and with some layer permitted: AUTHORIZED exactly when legal and unconditional, CONDITIONALLY_AUTHORIZED exactly when legal, conditional and allowed, otherwise the first hard finding or the first condition; `FirstRefusal` says which check that is |
| FirstRefusal.FirstRefusalIsPrimary | src/runtime.cpp:358-851 | Grounds are stated over path, views, set, policy and limits: the outcome and the primary violation are the code and the subject of the first check that refuses, in the order structure, adjacency, underlying, ports, links, capabilities, domains, policy and in path order within a stage, whatever the explanation bound and the evidence limit |
| FirstRefusal.FirstConditionIsPrimary | src/runtime.cpp:853-867 | Where nothing refuses and the policy authorizes nothing conditionally, the outcome is the code of the first check that attaches a condition, and there is no primary violation |
| FirstRefusal.UnrefusedIsAuthorized | src/runtime.cpp:853-881 | Otherwise the path is authorized, conditionally exactly when some check attaches a condition, or is over the evidence limit |
| FirstRefusal.SomethingIsFirst | src/runtime.cpp:386-851 | Some check refuses if and only if one is the first to, and so for conditions |
| FirstRefusal.RefusedPathIsRecorded | src/runtime.cpp:1719-1809 | A committed evaluation answers and records the code and subject of the first check that refuses |
| FirstRefusal.FindingsAreGrounds | src/runtime.cpp:386-851 | A violation with its code, severity and subject is found exactly when some check has the grounds for it: what refuses, conditions or is noted at each hop, pair, requirement, constraint and class |
| FirstRefusal.AllByCheck | src/runtime.cpp:386-851 | The findings are those of the checks, one check after the other |
| FirstRefusal.LegalIsUnrefused | src/runtime.cpp:386-851 | Where some layer is permitted, legality is that no check refuses, and unconditional legality that none attaches a condition |
| Grounds.SaysOnce | src/runtime.cpp:386-851 | A check has grounds for at most one violation |
| Bindings.EvidenceIsWhatWasConsulted | src/runtime.cpp:372-616 | Without overflow the bound evidence holds what the evaluation consulted and nothing else: scalars, elements, ports, links, the underlying record, capabilities, memberships and the domains they name |
| Bindings.ConsultedIsBound | src/runtime.cpp:372-616 | A consulted subject other than a capability is bound at the generation that the views show, and at zero when they have none |
| Bindings.ReadsAreConsulted | src/runtime.cpp:372-616 | The set calls of an evaluation are exactly the subjects that it consults |
| Bindings.PeersAreRecords | src/runtime.cpp:1187-1205 | A diversity constraint has a peer exactly when it names one whose record authorizes, with the elements of that record; the path counts as authorized when its own record authorizes |
| Evaluation.CommittedEvaluationIsLegal | src/runtime.cpp:1632-1809 | A committed evaluation leaves its path authorizing exactly when the path is legal in the state and views it read |
| Evaluation.OverflowNeverAuthorizes | src/runtime.cpp:874-877 | A path whose evidence overflows is never authorized |
| Evaluation.LeafUnderlyingLegality | src/runtime.cpp:422-442 | Over a leaf, legality asks for that path's own authority at the bound generation |
| Evaluation.LeafUnderlyingIsItsOwnRecord | src/runtime.cpp:1156-1185 | For a leaf underlying path the chain reports that path's own record |
| Chains.ChainResolvesToItsLastRecord | src/runtime.cpp:1156-1185 | For every chain: resolution fails if and only if the chain comes back to the path or to itself or is longer than max_nesting_depth; otherwise it reports the last record of the chain, which is the named one if and only if that is on record and is a leaf or rests on an absent path |
| Chains.DeeperChainIsReported | src/runtime.cpp:1164-1182 | Concrete: a path over an authorized path is judged by the rejected path two levels down |
| Evaluation.DropPrimaryMeaning | src/runtime.cpp:1725-1734 | The secondary list is the explanation without one hard violation of the primary code |
| Resolution.EvaluationDecidesLegality | src/runtime.cpp:115-149 | The staged findings authorize exactly the legal paths, for any explanation bound above the number of link hops |
| Resolution.BoundIsImmaterial | src/runtime.cpp:140-145 | Every bound above the number of link hops gives the same outcome and primary violation |
| ExplanationBound.VerdictUnderBound | src/runtime.cpp:853-872 | The outcome of an evaluation under an explanation bound is the one without a bound if and only if some check fails, nothing rests on a condition, or a condition is among the findings that the bound keeps |
| ExplanationBound.BoundDecides | src/runtime.cpp:140-145 | The same of any list of findings |
| ExplanationBound.SmallBoundHidesACondition | src/runtime.cpp:853-872 | Concrete: an evaluation that is AUTHORIZED with one explanation and CAPABILITY_UNKNOWN with two |
| Resolution.ShapeBoundsLinkHops | src/path.cpp:214-244 | A well-shaped path has at most max_hops - 2 link hops, because both ends are terminal elements |
| Resolution.FindingsDecide | src/runtime.cpp:386-851 | No hard finding in any stage is the same as legality; on a legal path the conditions are those of ports, links and capabilities |
| Legality.StructureDecides | src/runtime.cpp:388-419 | The structural stage is silent exactly when every element is present, current and live and every hop pair is legal |
| Legality.PortDecides | src/runtime.cpp:444-497 | The port stage refuses, conditions or passes a hop exactly as the declarative port rule says |
| Legality.LinkDecides | src/runtime.cpp:499-562 | The link stage refuses, conditions or passes a hop exactly as the declarative link rule says, with at most one finding per link |
| Legality.CapabilityDecides | src/runtime.cpp:564-581 | A requirement passes exactly when its two-valued reading holds of a known record, or the record is unknown and it does not fail closed |
| Legality.DomainDecides | src/runtime.cpp:618-805 | Each of the six failure-domain rules is silent exactly when its declarative form holds, and reports only hard findings |
| Legality.DiversityDecides | src/runtime.cpp:727-803 | Diversity holds exactly when the peer is established, coverage is complete, and no element and no domain of the classes is shared |
| Legality.PolicyStageDecides | src/runtime.cpp:807-850 | The policy stage is silent exactly when layers, loops, length and forbidden classes are respected |
| Rules.LayerRuleIsIntersection | src/constraints.cpp:394-397 | The layer rule is the intersection of both permissions if and only if that intersection is not empty |
| Rules.RulesKeepEveryRequirement | src/constraints.cpp:537-557 | The effective lists hold every requirement, constraint and prohibition of both sides and nothing else |
| Rules.Combine | src/constraints.cpp:493-569 | combine_rules step by step yields the specified rules, whose meaning `RulesMeaning`, `LayerRuleMeaning`, `RulesKeepEveryRequirement` and `RulesAreOrdered` give |
| Rules.RulesMeaning | src/constraints.cpp:493-569 | The effective rules accept degraded and unknown links, draining and maintenance ports and loops exactly where set and policy both do (unknown links also by the policy's second switch), attach a condition exactly where either does, and admit a hop count exactly within every non-zero maximum |
| Rules.LayerRuleMeaning | src/constraints.cpp:513-522 | A layer passes exactly when the set allows it and the policy does not forbid it, or when no layer is left |
| Rules.RulesAreOrdered | src/constraints.cpp:537-557 | The requirements and constraints that are checked are in canonical order, ties in the order policy before set as they were given, and forbidden classes ascend |
| Rules.SortIsStable | src/constraints.cpp:548-557 | Elements that the order does not tell apart keep their places among each other |
| Rules.FilterLayers | src/constraints.cpp:513-522 | The filtering loop keeps the permitted layers in order |
| Evaluator.Compute | src/runtime.cpp:358-881 | The whole staged evaluation, with its collector, caches and bounded evidence, yields the declared decision, evidence and overflow |
| Evaluator.CheckStructure | src/runtime.cpp:388-411 | The element loop reports and remembers what the stage specification says |
| Evaluator.CheckAdjacency | src/runtime.cpp:412-419 | The hop-pair loop reports exactly the illegal pairs in order |
| Evaluator.CheckUnderlying | src/runtime.cpp:421-442 | The underlying stage reports and remembers as specified |
| Evaluator.CheckPorts | src/runtime.cpp:444-497 | The port loop reports and remembers as specified |
| Evaluator.CheckLinks | src/runtime.cpp:499-562 | The link loop reports and remembers as specified |
| Evaluator.CheckCapabilities | src/runtime.cpp:564-581 | The capability loop reports and remembers as specified |
| Evaluator.CheckForbidden | src/runtime.cpp:620-637 | The forbidden-domain loop reports as specified and asks for every hop |
| Evaluator.CheckCount | src/runtime.cpp:639-696 | The two counting rules report as specified; an uncovered hop gives up the count |
| Evaluator.CheckExcluded | src/runtime.cpp:698-717 | The excluded-class loop, which the forbidden classes of the policy share, reports once per member |
| Evaluator.CheckCoverage | src/runtime.cpp:719-730 | The coverage loop reports exactly the uncovered hops |
| Evaluator.CheckDiversity | src/runtime.cpp:731-803 | The nested diversity loops report as specified and ask for the peer first, then for the hops |
| Evaluator.CheckDomains | src/runtime.cpp:611-805 | The failure-domain stage as a whole |
| Evaluator.CheckRepeats | src/runtime.cpp:813-823 | The growing set of seen keys reports every repeated hop |
| Evaluator.CheckPolicy | src/runtime.cpp:807-850 | The policy stage as a whole |
| Evaluator.ResolveConditions | src/runtime.cpp:853-872 | The resolution loop: conditional authorization, or the first condition made hard in place |
| Collectors.StageCollector.HardCall | src/runtime.cpp:120-127 | The first hard call fixes the primary outcome and violation; every call is logged and kept up to the bound |
| Collectors.StageCollector.SoftCall | src/runtime.cpp:129-145 | Conditions and informational findings are kept up to the bound and never become primary |
| Collectors.EvidenceRecorder.Remember | src/runtime.cpp:372-378 | A set call is applied or, when the vector refuses it, noted as overflow |
| Collectors.EvidenceRecorder.EnsureMembership | src/runtime.cpp:587-609 | The membership of an element and its domains are read the first time its key is asked for and cached after |
| Collectors.FirstAskedAppend | src/runtime.cpp:587-592 | Asking in two stretches reads what asking at once reads |
| Currentness.CommittedIsCurrent | src/runtime.cpp:1832-1844 | Right after evaluate commits a path without underlying path and failure-domain rules as authorized, conditional or rejected, a query is current and has no stale dependency |
| Currentness.CurrentMeansSameEvidence | src/runtime.cpp:970-976 | At any later time such a record is current exactly when an evaluation then would bind the very same evidence |
| Currentness.QueryRebuildsEvidence | src/runtime.cpp:1098-1154 | current_evidence rebuilds exactly the evidence that the evaluation bound |
| ViewChanges.ChangeIsNoticed | src/runtime.cpp:970-976 | Of a link, port, element, capability, domain or scalar that a record depends on and binds: the query lists it as stale if and only if the view has it at another generation, and then the record is not current |
| ViewChanges.ShownIsFound | src/runtime.cpp:1098-1154 | current_evidence holds for each of these subjects the generation that the view has |
| Currentness.SameMapSameVector | src/evidence.cpp:123-141 | Runs of bounded set calls that leave the same map overflow together, and without overflow leave the same vector |
| Currentness.OverflowMeaning | src/evidence.cpp:123-141 | A run of set calls overflows exactly when a subject is too long or there are too many distinct subjects |
| Currentness.ReadCurrentEvidence | src/runtime.cpp:1098-1154 | current_evidence with its loops yields the specified vector; membership keys are skipped |
| Currentness.Query | src/runtime.cpp:946-981 | The stale dependencies and the current flag of a snapshot |
| AuthorityRuntime.PathAuthorityRuntime.CommitDecision | src/runtime.cpp:1348-1443 | commit in place: the new state and the result are the specified ones |
| AuthorityRuntime.PathAuthorityRuntime.InvalidateEvidence | src/runtime.cpp:1267-1325 | Both invalidation loops in place, with their two report lists in order |
| AuthorityRuntime.PathAuthorityRuntime.MarkRevalidationRequired | src/runtime.cpp:1232-1247 | Marks one record in place and leaves the others |
| AuthorityRuntime.PathAuthorityRuntime.InvalidatePublisher | src/runtime.cpp:2190-2210 | Marks exactly the records of one publisher and boot |
| AuthorityRuntime.PathAuthorityRuntime.IndexRecord | src/runtime.cpp:1027-1044 | Five insertion loops file the path under exactly its keys |
| AuthorityRuntime.PathAuthorityRuntime.UnindexRecord | src/runtime.cpp:1046-1063 | Five erasure loops remove the path from exactly its keys and drop empty buckets |
| AuthorityRuntime.PathAuthorityRuntime.RebuildDependencies | src/runtime.cpp:1065-1095 | The loops over hops and rules rebuild the dependency lists |
| AuthorityRuntime.PathAuthorityRuntime.HasStaleEvidence | src/runtime.cpp:1016-1024 | The search finds an entry below its watermark exactly when there is one |
| AuthorityRuntime.PathAuthorityRuntime.RaiseWatermark | src/runtime.cpp:1009-1014 | Raises one watermark and never lowers it |
| AuthorityRuntime.PathAuthorityRuntime.Remember | src/runtime.cpp:1249-1262 | The attempt log in place, oldest ids dropped first |
| AuthorityRuntime.PathAuthorityRuntime.RegisterConstraintSet | src/runtime.cpp:1511-1580 | register_constraint_set in place, with its result; `RegistrationByContent` and `RegistrationStores` say what that is |
| Digests.RegistrationByContent | src/runtime.cpp:1511-1556 | A registration is unchanged exactly for the content that is registered, creates the next generation exactly for other content while one is left, and is refused otherwise |
| Digests.RegistrationStores | src/runtime.cpp:1551-1579 | A created set is stored as given at its generation; exactly the records that bind another generation of it are marked, and those that were not marked before are counted |
| Digests.ConstraintDigestIsContent | src/constraints.cpp:472-482 | Two sets have one digest exactly when they agree in everything but the generation, with the same members in their lists, tied ones in the same order |
| Digests.ConstraintDigestMembers | src/constraints.cpp:470-481 | Equal digests mean equal lists as multisets; and sets that differ only in construction order have one digest where the order tells their members apart |
| Digests.ConstructionOrderCanShow | src/constraints.cpp:470-482 | Concrete: two sets that differ only in construction order and have different digests |
| Digests.PolicyDigestIsContent | src/constraints.cpp:484-492 | The same of policies |
| Digests.PathDigestIsContent | src/path.cpp:127 | Two paths have one digest exactly when they agree in everything but the id |
| Digests.InputDigestIsContent | src/runtime.cpp:151-168 | Two inputs have one digest exactly when path, set and policy agree in content and generation, and the epochs agree |
| Digests.AuthorityDigestIsContent | src/runtime.cpp:183-201 | Two decisions have one digest exactly when path, set, evidence, state and outcome agree and the violations have the same codes |
| Digests.SortsAgreeExactly | src/constraints.cpp:474-480 | The stable sorts of two lists agree exactly when the lists are the same up to the order they are sorted by |
| AuthorityRuntime.PathAuthorityRuntime.RevokePath | src/runtime.cpp:1947-2047 | revoke in place, with its result |
| AuthorityRuntime.PathAuthorityRuntime.RetirePath | src/runtime.cpp:2049-2109 | retire in place, with its result |
| AuthorityRuntime.PathAuthorityRuntime.PublishDecision | src/runtime.cpp:2401-2575 | publish_decision in place, with its answer |
| AuthorityRuntime.PathAuthorityRuntime.EvaluatePath | src/runtime.cpp:1632-1809 | evaluate in place, through the staged evaluation, with its answer |
| AuthorityRuntime.PathAuthorityRuntime.RevalidatePath | src/runtime.cpp:1907-1945 | revalidate in place, with its answer |
| AuthorityRuntime.PathAuthorityRuntime.ImportState | src/runtime.cpp:2282-2398 | import_state record by record in the order of the image: the specified state; unchanged when a check before the replacement fails; otherwise the recovery of exactly the records before the first live one at its last generation |
| AuthorityRuntime.ListPeers | src/runtime.cpp:1187-1214 | Each peer that a constraint names, once |
| AuthorityRuntime.ListedKeysAreIndexKeys | src/runtime.cpp:1027-1044 | The five lists give exactly the non-empty index keys |
| Evaluation.FollowChain | src/runtime.cpp:1156-1185 | The chain loop with its visited set and depth bound |
| CoordinatorSafety.PublishedAuthorityHasAWorker | src/distributed.cpp:507-529 | In every reachable state, restarts included, each published authorizing record below the last generation carries a boot that is registered, on an open connection, under the same publisher, and not fenced |
| CoordinatorSafety.RestartIsSafe | src/distributed.cpp:337-393 | After a crash at the end of any run, itself through any number of crashes: the new epoch exceeds the image's, nothing recovered authorizes in state or in outcome, stored revocations and retirements come back with their paths; unless a write was refused, every boot with an acknowledged publish is fenced and acknowledged revocations are on record |
| CoordinatorSafety.FencedForever | src/distributed.cpp:507-529 | Over any run in which no write was refused, and any number of crashes, a fenced boot stays fenced |
| CoordinatorSafety.WorkersStaySound | src/distributed.cpp:593-632 | Registered and fenced boots stay disjoint and every worker stands on an open connection |
| CoordinatorSafety.RunAcknowledges | src/distributed.cpp:690-707 | Along any run in which no write was refused, every acknowledged boot is fenced or registered and in the image, and every acknowledged revocation is stored and in the image under the name that its path has by then |
| CoordinatorSafety.RestartKeeps | src/persistence.cpp:74-174 | A stored path comes back under the id that its content determines, with its revocation and retirement, in the runtime and in the image as it is read |
| CoordinatorSafety.NameIsKept | src/canonical.cpp:635-708 | Over a restart a path keeps its name if and only if the name is the one that its content determines |
| CoordinatorSafety.StartFences | src/distributed.cpp:343-356 | After a start exactly the boots that the image fences are fenced |
| CoordinatorSafety.StartEpochMeaning | src/distributed.cpp:362-388 | The start epoch is set, exceeds the recovered one, and is the pinned epoch or no lower than the control's; exactly when a start is refused |
| CoordinatorEdges.AuthorityOutlivesTheConnection | src/runtime.cpp:2190-2210 | When a connection closes, authority that one of its boots published outlives it if and only if it was published under another name than the one the boot registered |
| CoordinatorEdges.SecondNameEscapesTheLoss | src/distributed.cpp:507-529 | Concrete: a run from a fresh coordinator that ends with published authority of a boot that is fenced and not registered |
| CoordinatorImages.RestartFailsExactly | src/distributed.cpp:337-393 | After any run from a fresh coordinator, through any number of crashes: the start fails if and only if the decoder refuses the image, a path comes back as the one that it rests on, a live record is at its last generation, or the epoch is the last one or not below the pinned one |
| CoordinatorImages.DecodesExactly | src/persistence.cpp:249-359 | Of the images that a coordinator can store, the decoder refuses exactly those with a policy, set, record or fence outside its bounds, more sets or fences than the limits allow, two paths of one content, or a path over one that is not stored |
| CoordinatorStore.TooManyFencesBlockTheRestart | src/distributed.cpp:317-329 | Concrete: a run with room for one fence that stores two, and no start accepts the image |
| CoordinatorStore.UnnamedDomainBlocksTheRestart | src/canonical.cpp:839-842 | Concrete: a run that registers a set with an unnamed failure domain, after which no start accepts the image |
| CoordinatorStore.LostFenceSurvives | src/distributed.cpp:304-335 | A boot fenced when its connection closed is fenced after a crash if and only if the encoder accepted the image that was written then, or an earlier image holds the fence |
| CoordinatorStore.AcknowledgedBootSurvives | src/distributed.cpp:304-335 | A boot whose publication was accepted is fenced after a crash if and only if the encoder accepted the image that was written then, or an earlier image holds the fence |
| CoordinatorStore.RefusedWriteForgetsTheFence | src/distributed.cpp:304-335 | Concrete: under valid limits that no image fits, a fenced boot registers again after a restart |
| CoordinatorStore.RestartRenamesThePath | src/canonical.cpp:635-708 | Concrete: a path that the process evaluated under a name of its own is on record under its derived id after a restart, and under no other |
| CoordinatorEdges.AbsentUnderlyingBlocksTheRestart | src/distributed.cpp:634-707 | Concrete: a run in which an accepted publication over an absent path stores an image that no start accepts |
| CoordinatorImages.RunStorable | src/distributed.cpp:304-335 | In every reachable state the records and the stored image have matching ids, set generations, well-shaped paths over registered sets, valid evidence, and the state of their outcome; the sets are keyed by id and valid; boots are identities; the image has an epoch and room for its records |
| CoordinatorImages.StartStorable | src/distributed.cpp:343-356 | A start restores such a state, and none of its records authorizes in state or in outcome |
| CoordinatorImages.EvaluateIsVetted | src/runtime.cpp:1632-1776 | What an evaluation commits is well shaped, proper, and has valid evidence under limits with room for two entries |
| CoordinatorImages.PublishIsVetted | src/runtime.cpp:2401-2510 | The same of a publication, under any limits |
| CoordinatorImages.RegisterIsVetted | src/runtime.cpp:1511-1556 | What a registration stores is registrable and takes the next generation of its set |
| CoordinatorSafety.LoseAllMarks | src/distributed.cpp:523-525 | Losing boots leaves no authority that one of them published under its registered name |
| Coordinator.FencedIsRefused | src/distributed.cpp:601-603 | REGISTER, PUBLISH and REVOKE from a fenced boot are refused and change nothing |
| Coordinator.AcceptedIsRegistered | src/distributed.cpp:640-656 | An accepted publish comes from a boot that is registered on its connection and not fenced |
| Coordinator.FenceMeaning | src/distributed.cpp:517-519 | Of distinct lost boots, exactly the first ones that the fence set has room for are fenced |
| Coordinator.FencedWithRoom | src/distributed.cpp:517-519 | All of them are fenced if and only if there is room for all |
| CoordinatorEdges.LostBootsAreFenced | src/distributed.cpp:507-529 | When a connection closes, its registered boots are unregistered, and all fenced if and only if the fence set has room for all |
| CoordinatorEdges.AcknowledgedBootIsNotFenced | src/distributed.cpp:517-519 | Concrete: a run with room for one fence, after which a boot with an acknowledged publication is neither fenced nor registered |
| Coordinator.FenceGrows | src/distributed.cpp:517-519 | Fencing never removes a fence, fences only lost boots, and keeps the bound |
| CoordinatorProcess.PathAuthorityCoordinator.RegisterWorkerBoot | src/distributed.cpp:593-632 | handle_register in place, with its answer |
| Acceptance.RegistrationIsAcceptedExactly | src/distributed.cpp:593-632 | A boot is registered exactly on a live connection, with a well-formed envelope, not fenced, and with room for a worker |
| Acceptance.RegistrationWrites | src/distributed.cpp:603-623 | It is then known under its publisher for that connection, and nothing else changes |
| Acceptance.PublishIsAcceptedExactly | src/distributed.cpp:634-707 | A publication is accepted exactly when sender, decision and commit pass every check; otherwise it is answered with the first that fails |
| Acceptance.AcceptedIsCurrent | src/distributed.cpp:657-683 | An accepted publication asserted the coordinator's epoch, and its evidence binds that epoch and the live policy |
| Acceptance.RevocationIsAcceptedExactly | src/distributed.cpp:709-765 | A revocation is accepted exactly when its sender passes, its epoch is the coordinator's and the runtime accepts it; otherwise it is answered with the first check that fails |
| CoordinatorProcess.PathAuthorityCoordinator.PublishFrom | src/distributed.cpp:634-707 | handle_publish in place, with its answer and the stored image |
| CoordinatorProcess.PathAuthorityCoordinator.RevokeFrom | src/distributed.cpp:709-765 | handle_revoke in place, with its answer and the stored image |
| CoordinatorProcess.PathAuthorityCoordinator.FenceConnectionWorkers | src/distributed.cpp:507-529 | fence_connection_workers in place, for any order of the boots |
| CoordinatorProcess.PathAuthorityCoordinator.PersistNow | src/distributed.cpp:304-335 | The image holds the exported state and every fenced or registered boot; one that the encoder refuses leaves the old image |
| CoordinatorProcess.PathAuthorityCoordinator.StartUp | src/distributed.cpp:337-393 | start in place: decoding, recovery and the choice of the epoch; when the decoder refuses nothing is loaded, and a later failure has loaded the stored fences and exactly the records before the first one in the file that cannot advance |
| Distribution.PublishedEvaluationIsLocalEvaluation | src/distributed.cpp:1050-1086 | For a path new on both sides without underlying path, in the same world: evaluating at the evaluator and publishing takes the coordinator to the state, and gives the answer, of evaluating there |
| Distribution.PublishedRecord | src/distributed.cpp:1050-1086 | The committed records agree in every field but publisher and boot, at generation one |
| Distribution.UncommittedIsNeverAccepted | src/distributed.cpp:1050-1086 | Whatever an evaluator sends after an evaluation that it did not commit itself is accepted by no coordinator and changes nothing there; a replay, sent as IDEMPOTENT with the state on record, is refused as MALFORMED_PATH |
| Distribution.SentAfterCommit | src/distributed.cpp:1050-1086 | After a local commit the decision that is sent is the computed one |
| Reauthorization.ReplayIsRefusedEverywhere | src/distributed.cpp:1050-1086 | Concrete: an evaluator replays an evaluation after a restart, and what it sends is refused by every coordinator as MALFORMED_PATH |
| Distribution.ComputedScalars | src/evidence.cpp:154-162 | Computed evidence is valid and bound to the epoch and policy that were read |
| Evidence.CanonicalUnique | src/evidence.cpp:181-191 | A canonical vector is determined by the map it denotes |
| Evidence.SetOrderIrrelevant | src/evidence.cpp:123-141 | The vector depends only on the final subject-to-generation map, not on call order |
| Evidence.PutFind | src/evidence.cpp:123-141 | A set call changes the map at its own key and nowhere else |
| Evidence.PutAllFind | src/evidence.cpp:123-141 | After any set calls a lookup gives the last value set for the key, and the vector is canonical |
| Evidence.EvidenceVector.Set | src/evidence.cpp:123-141 | Sorted insertion or overwrite in place; refused exactly when the subject is too long or a new key does not fit |
| Evidence.EvidenceVector.Lookup | src/evidence.cpp:143-152 | Binary search finds the generation of a key exactly when it is bound |
| Evidence.EvidenceVector.LowerBound | src/evidence.cpp:128-130 | The first position that is not below the probe |
| Evidence.DiffEvidence | src/evidence.cpp:208-239 | The two-index merge loop yields the specified deltas |
| Evidence.DiffMeaning | src/evidence.cpp:208-239 | A delta is reported exactly for the keys whose generation differs, with both generations, in strictly increasing order |
| Evidence.DiffIsExact | src/evidence.cpp:208-239 | The diff is empty exactly for equal vectors, and applying it to the first gives the second |
| Requirements.EvaluateNode | src/runtime.cpp:281-340 | The recursive evaluation with its early exits computes the Kleene value |
| Requirements.KnownRecordDecides | src/runtime.cpp:281-340 | Against a known record every tree has its Boolean value and is never UNKNOWN |
| Requirements.LeafMeaning | src/runtime.cpp:212-279 | A known leaf is satisfied exactly by the values that meet it: minima, maxima, ranges and versions as bounds in the numeric or version order, which a value of another type never meets, SUPPORTS by any non-zero, true or non-empty value, IN_SET by the members |
| Requirements.ValueOrder | src/constraints.cpp:146-158 | The order of values is numeric, textual code unit by code unit, or major, minor, patch within a type, and by type otherwise |
| Requirements.UnknownRecordDecidesNothing | src/runtime.cpp:212-218 | Against an unknown record every tree is UNKNOWN |
| Requirements.ChildOrderIrrelevant | src/runtime.cpp:297-335 | The status does not depend on the order of the children |
| Requirements.DeMorgan | src/runtime.cpp:283-295 | NOT obeys De Morgan over ALL_OF and ANY_OF, UNKNOWN included |
| PathShape.ValidatePathShape | src/path.cpp:197-291 | The checks and loops report the first failing rule, and VALID exactly for a well-shaped path |
| PathShape.ShapeMeaning | src/path.cpp:197-291 | A path is accepted exactly when it is well shaped |
| PathShape.CheckLoops | src/path.cpp:246-269 | The growing set of keys accepts exactly the paths without a repeated counted element |
| PathShape.CheckEnds | src/path.cpp:235-244 | Both ends terminal and no endpoint in between |
| PathShape.ElementKeyInjective | src/path.cpp:116-118 | The rendered key of an element determines the element |
| PathCodec.DecodeInvertsEncode | src/canonical.cpp:610-708 | Decoding an encoding gives the path under its derived id if the path is within every bound of the decoder, and nothing otherwise |
| PathCodec.EncodeInvertsDecode | src/canonical.cpp:635-708 | Accepted bytes are the canonical encoding of a well-formed path |
| PathCodec.EncodingIsInjective | src/canonical.cpp:610-633 | Paths with the same encoding agree in everything but the id, so hop order never collapses |
| PathCodec.WritePath | src/canonical.cpp:610-633 | The writer appends exactly the encoding |
| PathCodec.DecodePathFrom | src/canonical.cpp:635-708 | The reader accepts and consumes exactly what the decoder specification does |
| RequirementCodec.RequirementRoundTrip | src/canonical.cpp:420-463 | A validated tree followed by any bytes decodes back to itself, consuming its own bytes and node_count units of budget, exactly when its keys fit the text bound |
| RequirementCodec.DefaultBoundFitsEveryKey | src/canonical.cpp:420-463 | A text bound of at least the capability key length fits every validated tree |
| RequirementCodec.PutReadRequirement | src/canonical.cpp:420-450 | Every tree the decoder accepts obeys the node and depth limits and is encoded by the bytes it consumed |
| RequirementCodec.WriteRequirement | src/canonical.cpp:452-463 | The recursive writer appends exactly the encoding |
| RequirementCodec.ReadRequirementFrom | src/canonical.cpp:420-450 | The recursive reader accepts, consumes and spends budget as the decoder specification does |
| ConstraintCodec.ConstraintSetRoundTrip | src/canonical.cpp:770-869 | A set within the bounds decodes back to itself if and only if every failure-domain constraint names a domain |
| ConstraintCodec.EncodeInvertsDecodeSet | src/canonical.cpp:801-869 | Accepted bytes are the canonical encoding of a set within every limit |
| ConstraintCodec.PolicyRoundTrip | src/canonical.cpp:871-925 | A policy decodes back to itself if it is within every bound of the decoder, and to nothing otherwise |
| ConstraintCodec.SetDecodes | src/canonical.cpp:770-869 | A set decodes back to itself if it is within every bound of the decoder, and to nothing otherwise |
| ConstraintCodec.EvidenceRoundTrip | src/canonical.cpp:927-971 | Two-sided: canonical vectors within the limits and accepted bytes determine each other |
| DurableCodec.StateDecodes | src/persistence.cpp:201-359 | The decoder accepts an encoded state if and only if every field is within its bounds, no set and no derived path id occurs twice, and every reference is to something in the image; it gives the state back with each path under its derived id and malformed optional identities unset |
| StoreImages.WritableMeaning | src/persistence.cpp:201-247 | An image is written if and only if the encoder does not refuse it, whatever the bytes of the digests are |
| StoreImages.ReadIsDecode | src/persistence.cpp:249-359 | Reading an image is decoding what was encoded for it: both are refused together, and what comes out holds the same records, sets and fences |
| StoreImages.ReadTwice | src/persistence.cpp:427-430 | Reading what was read gives the same image again |
| DurableCodec.ReadPutRecord | src/persistence.cpp:74-174 | A record followed by any bytes reads back if it is within every bound of the reader, and is refused otherwise |
| Bytes.ByteWriter.Text | src/canonical.cpp:259-264 | A length-prefixed text is appended |
| Bytes.ByteReader.Uint | src/canonical.cpp:278-305 | A little-endian integer is read exactly when enough bytes are left |
| Bytes.ByteReader.Text | src/canonical.cpp:329-336 | A text is read exactly when its length is within the bound and the bytes are there |
| HashConstants.RoundConstantsAreCubeRoots | src/canonical.cpp:22-35 | Each round constant is the first 32 fraction bits of the cube root of its prime |
| HashConstants.InitialHashIsSquareRoots | src/canonical.cpp:43-47 | The initial hash value is the first 32 fraction bits of the square roots of the first eight primes |
| HashConstants.FirstPrimes | src/canonical.cpp:22-35 | The primes of the table start at two and follow one another without a gap |
| Sha256.HashChunks | src/canonical.cpp:39-152 | Feeding a message in any pieces gives the digest of the whole message as FIPS 180-4 specifies it |
| Sha256.Hasher.Update | src/canonical.cpp:50-59 | Any bytes extend the absorbed message; full blocks are compressed as they fill |
| Sha256.Hasher.Finish | src/canonical.cpp:61-93 | Padding per section 5.1.1 of FIPS 180-4 for every message length, one or two final blocks |
| Sha256.Hasher.Transform | src/canonical.cpp:96-146 | The compression step is the one of section 6.2.2 of FIPS 180-4 |
| Sha256.PadSplit | src/canonical.cpp:61-86 | The padded message splits into the blocks already compressed and the one or two last ones |
| Authority.OperationClean | src/runtime.cpp:1537-1706 | Each whole operation keeps every authorizing record clean |
| Authority.StoreSetClean | src/runtime.cpp:1564-1579 | A registration marks every record that would otherwise authorize under another generation of the set |
| Authority.OperationKeepsBarred | src/runtime.cpp:2009-2089 | No whole operation removes a revocation or a retirement |
| RuntimeRuns.StepSound | src/runtime.cpp:1232-1443 | Each step keeps record consistency, and keeps every digest equal to its recomputation |
| RuntimeRuns.StepRewrites | src/runtime.cpp:1267-2210 | A step other than a decision leaves each record alone, marks it, revokes it or retires it |
| RuntimeRuns.StepFrames | src/runtime.cpp:1267-2210 | Such a step leaves indexes, definitions, evidence, dependencies and publishers alone, keeps revocations and retirements, and makes nothing authorize that it changes |
| RuntimeIndexes.StepAgrees | src/runtime.cpp:1027-1443 | Each step keeps the indexes the inverse of the dependency lists |
| RuntimeIndexes.CandidatesCover | src/runtime.cpp:1302-1307 | The candidates of an invalidation depend on its key and include every dependent record that marking could change |
| RuntimeIndexes.StoreAgrees | src/runtime.cpp:1398-1431 | Unfiling a path and filing it under its new keys keeps the invariant |
| Watermarks.NoticeHolds | src/runtime.cpp:1292-1325 | After an invalidation every record that still authorizes is not below the raised watermark |
| Watermarks.CommitHolds | src/runtime.cpp:1363-1370 | After a commit the new record is not below any watermark |
| Watermarks.BoundStaysCurrent | src/runtime.cpp:1312-1317 | A record that binds exactly the announced generation stays current when the watermark rises to it |
| InvalidationBatches.BatchWatermark | src/runtime.cpp:1009-1014 | After a batch a watermark is the least bound on its old value and every announced generation |
| Interleaving.RunFiled | src/runtime.cpp:1065-1095 | In every reachable state each record lists its own elements and its underlying path |
| Recovery.IndexesOfInverse | src/runtime.cpp:1027-1044 | Filing a map of records from nothing gives the exact inverse of their dependency lists |
| CoordinatorSafety.MessageBacked | src/distributed.cpp:566-591 | Each message keeps published authority backed by a registered worker |
| CoordinatorSafety.MessageAcknowledges | src/distributed.cpp:566-591 | Each message keeps every acknowledgement in the image, unless a write is refused |
| CoordinatorSafety.FencesAccumulate | src/distributed.cpp:507-529 | Each message keeps every fence, and keeps every fence in the image, unless a write is refused |
| CoordinatorSafety.StartBacked | src/distributed.cpp:343-356 | After a start nothing is in an authorizing state, so no published authority lacks its worker |
| CoordinatorImages.PublishIsStep | src/distributed.cpp:657-683 | A publish message commits a vetted request under the sender's boot and publisher, or changes nothing |
| CoordinatorImages.MessageStorable | src/distributed.cpp:566-591 | Each message keeps runtime and image storable |
| Currentness.ElementOrder | src/runtime.cpp:1113-1128 | Reading element by element, or elements, ports and links in turn, leaves the same map |
| Currentness.CommittedRecord | src/runtime.cpp:1415-1431 | What evaluate leaves on record when it commits: definition, evidence and dependency lists |
| Distribution.SameRequest | src/runtime.cpp:2401-2530 | In one world the publication of a computed decision prepares the very request that an evaluation prepares |
| Legality.LoopsDecide | src/runtime.cpp:813-823 | The repetition loop is silent exactly when loops are allowed or no element repeats |
| Legality.LayersDecide | src/runtime.cpp:807-812 | When some layer is permitted, the layer loop is silent exactly when every hop is on a permitted one |
| Legality.SharedClassDecides | src/runtime.cpp:781-802 | The nested loops are silent exactly when no domain of the class is shared with the peer |
| Legality.ExcludedDecides | src/runtime.cpp:698-717 | A hop passes an excluded class exactly when it is covered and has no member of the class |
| Resolution.FirstConditionIsEarly | src/runtime.cpp:140-145 | Without hard findings only informational ones precede the first condition, so a bound above their number keeps it |
| Reads.DependenciesFileStructure | src/runtime.cpp:1072-1094 | Whatever set is registered, rebuilding lists the path's own elements and its underlying path |
| Rules.SortKeepsMembers | src/constraints.cpp:548-557 | The stable sort keeps every member with its multiplicity |
| Requirements.ValidIsShaped | src/constraints.cpp:266-379 | A validated tree has the shape that the evaluator relies on |
| RequirementCodec.ReadPutRequirement | src/canonical.cpp:420-463 | Decoding the encoding of an encodable tree consumes its bytes and its node count of budget, at any depth and budget that suffice |
| ConstraintCodec.PutReadConstraintSet | src/canonical.cpp:801-869 | Whatever set is read was encoded by the bytes that were consumed |
| PathCodec.PutReadPath | src/canonical.cpp:635-708 | Whatever path is read was encoded by the bytes that were consumed |
| DurableCodec.ReadPutPayloadOf | src/persistence.cpp:201-247 | The payload of a state followed by any bytes reads back if every field is within its bounds, and is refused otherwise |
| CoordinatorProcess.PathAuthorityCoordinator.UnregisterBoots | src/distributed.cpp:509-522 | The pass over the boots of a connection fences and unregisters the ones still registered |
| AuthorityRuntime.PathAuthorityRuntime.MarkCandidates | src/runtime.cpp:1305-1324 | The marking loop touches exactly the candidates and sorts them into the two report lists, each in ascending order |
| AuthorityRuntime.PathAuthorityRuntime.LoadRecords | src/runtime.cpp:2355-2398 | The import loop files exactly the records before the first one that cannot advance |
| AuthorityRuntime.DecideInputs | src/runtime.cpp:1719-1740 | The decision that evaluate makes of a computation |

## Left out

- Watermarks.AuthorityIsNeverOutdated: says nothing of records at the last generation and of evidence that is not filed; `CoverageDecidesMarking` gives the exact condition.
- Interleaving.ComputedAuthorityIsNeverOutdated: leaves out domain generations and constraint-set announcements, whose subjects and index keys do not line up in the code, and runs across an import, which drops the watermarks of the old process.
- Authority.OperationsKeepAuthorityClean: binds the registered set generation only while the record's own generation can advance, because marking is a no-op at the last one.
- CoordinatorSafety.PublishedAuthorityHasAWorker: assumes one publisher name per boot, which the coordinator does not enforce; `AuthorityOutlivesTheConnection` says exactly what follows otherwise.
- CoordinatorSafety.RestartIsSafe: its statements about acknowledgements assume that no write was refused, which `LostFenceSurvives` and `AcknowledgedBootSurvives` make exact, and that fences plus workers stay within max_publishers, which `LostBootsAreFenced` makes exact; persistence is on, and whether the start succeeds is what `RestartFailsExactly` decides.
- CoordinatorImages.RestartFailsExactly: assumes limits with room for two evidence entries, because with room for one an evaluation commits evidence without a policy generation; the file is the one that the last accepted write left, so damage to it and failures of the file system are not part of the start.
- Coordinator.Handle: the work that the process does on its own account, in `Internal` messages, consists of the steps that its operations take: decisions that evaluations vetted and that carry no boot, registered sets at their next generation, invalidations, revocations and retirements; a step of another kind is ignored.
- ViewChanges.ChangeIsNoticed: says nothing of memberships and underlying paths, which the query does not read, and assumes that no two capabilities of the record render to one key.
- Distribution.PublishedEvaluationIsLocalEvaluation: assumes room for two evidence entries, one identity rule on both sides and an envelope of the current epoch.
- Currentness.CommittedIsCurrent: only for paths without underlying path and failure-domain rules, because current_evidence does not rebuild the evidence of the others.
- Evaluation.DecisionIsLegality: assumes that some layer is permitted and that requirement trees have their shape, which registration checks and the evaluator relies on.
- StoreImages.ReadIsDecode: assumes that texts are bytes, that texts and lists fit their 32-bit length prefixes, and that a peer generation comes with a peer path; a digest may be any 32 bytes.
- Coordinator.Persist: every write is made in the state that the message leaves, so no other message comes between a change and its write.
- The constraint, policy and durable codecs are functions on byte sequences; their writers and readers are not modelled as updates in place.
- Integers are written as sums of scaled bytes instead of shifted and combined words; the eight words of the hash state are a record.
- Enumeration values outside their range cannot be represented, so the checks for them in memory are absent; the decoders keep theirs.
- Sockets, threads, frames, select loops and the file system: messages and store writes are atomic steps.
- Views that change while one evaluation reads them.
- What the runtime appends to the history lists: a run may set a list to anything at any time (`Log` messages), so that the store holds whatever lists it can hold.
- Statistics, evaluation counters, retained snapshots, explanations and violation details, and the order in which secondary violations are presented.
- Batch evaluation, query messages, worker listings and the acknowledgement codecs, which wrap what is modelled.
- The in-memory evidence authorities: arbitrary views stand in for them.
- Collision resistance of the hash and of truncated path ids: the runtime's digests are injective by construction.
- Requirement trees of a policy are not validated by the runtime; the model asks for their shape where the code dereferences it.
