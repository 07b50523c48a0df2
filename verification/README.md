# Agent Action Control: a verified model

Agent Action Control takes the action an agent proposes, normalises it, hashes its canonical
form, asks a policy engine, and stores one authoritative decision per (runtime, request). This
project models that core in Dafny and proves what it promises: one record per request over every
interleaving of callers and failures, a canonical form that determines the action, policy
evaluators and a composer that fail closed, and a migration history that is always 1 to k.

Verify everything with `dafny verify dfyconfig.toml`.

## How it is laid out

- `Text`, `Ascending`, `Digits`, `Json`, `Clock`, `Results`, `Guards`: strings as Unicode scalars with
  trimming, order and byte lengths; sorted duplicate-free lists; JSON text with its parser
  (section 7 of RFC 8259); instants and their text (section 5.6 of RFC 3339); and guards that keep the
  wide predicates closed in proofs that only pass them on.
- `Principals`, `Parameters`, `Evidence`, `Actions`, `Normalizer`, `Canonical`: the domain values,
  the normaliser, the canonical form, its digest and its decoder. `RawInput`: which raw inputs are
  accepted and what each means, without the parsers. `CanonicalForm`: the canonical text written out.
- `Decisions`, `Gates`, `Policy` and `Embedded`, `Osprey`: decisions, the four places that restate
  their invariant, and the two policy engines. `EmbeddedTable`, `VerdictGrammar`: what each engine
  answers, said over the action and over the verdict texts without the engine's own predicates.
- `Ledger`, `Journal`, `Constraints`: the encoder, the SQL rows with their keys and CHECKs, the
  reader, and the invariant that the tables are the exact image of the commits applied so far.
  `Columns`: what each column of a commit's rows holds.
- `Service`, `Requests`, `Protocol`: what a raw call becomes, and `Evaluate` over `CommitEvaluation` as a step system of any number of callers, and
  its safety. `Idempotence`, `Explained`, `Provenance`: what a caller is told by an existing commit, why a
  caller can be told of an error, and that the ledger holds what the policy said. `Liveness`,
  `Termination`: an undisturbed call succeeds, every call ends. `WriteOnce`: the refinement of a write-once
  map. `Storage`: the two objects of the source, one call at a time with failing operations and other
  callers' commits.
- `Witnesses`: one concrete input for each promise that is not kept.
- `Migrations`, `MigrationRunner`: loading, the COUNT and MAX check, and interleaved runs.

SHA-256 is a parameter: every theorem holds for any function from texts to 32 bytes, and where
equal digests must mean equal actions the absence of a collision between the two texts concerned
is an explicit hypothesis. Policy answers, generated identifiers, clock readings, faults and
the interleaving itself are inputs of the theorems.

## What the code does not promise

- A row whose requested or evaluated time falls, in UTC, outside the years 0 to 9999 is accepted
  and can never be read back: every later call for that request reports a ledger failure.
  `Ledger.RowsReadBack` proves that this is the only such case and
  `Witnesses.LateRecordIsLost` has a run in which it happens, to a request made at
  9999-12-31T23:00:00-01:00. The Osprey engine
  refuses such a requested time (`Service.OspreyCommitAccepted`); the embedded one does not.
- The lookup trims its key and the insert does not (internal/storage/sqlite/ledger.go:39-40 and
  220-221). A row is invisible to every lookup exactly when its key is untrimmed
  (`Ledger.UntrimmedKeyIsLost`); the service never supplies such a key (`Service.PrepareSound`).
- The repository's README calls every `deny.<reason_code>` verdict terminal. The composer treats
  external_destination, visibility_expansion and destructive_operation as negotiable, so an approval
  requirement survives beside them (`Witnesses.DenyVerdictIsNegotiable`); only actor_not_authorized and an
  unavailable policy remove it (`Osprey.OspreyFailClosed`). The model follows the code.
- The decision invariant is restated in four gates that do not coincide. `Gates.GatesAgreeExactly` says for
  every two of SQL, decoder, HTTP validator and invariant exactly when they agree on a decision the
  encoder lets through: a repeated REQUIRE_APPROVAL passes HTTP without the approval reason and the decoder
  with it, and a repeated reason passes all four gates against the invariant. The encoder looks at codes
  only (`Gates.EncoderIsWeakest`). `Gates.DisagreementWitnesses` has one decision for each case; the composer
  produces none of them (`Gates.ComposedPassesEveryGate`).
- The embedded engine fails on a SECRET payload exactly when two evidence items share an identifier under
  different types (`Embedded.EmbeddedFails`, `Witnesses.SharedIdentifierFails`).
- A conflict found after a failed insert or commit is reported as a ledger failure
  (`Witnesses.ConflictReportedAsFailure`). `Idempotence.ConflictExactly` says exactly when the conflict error is
  returned, and `Protocol.ConflictIsReal` that it is never wrong.
- SQL `length` stops at a NUL, so an identifier that begins with NUL passes every Go check and is
  refused by the database (`Constraints.StorableMeaning`, `Witnesses.NulRequestIsRefused`).

## Model

| member | source | states |
|---|---|---|
| Protocol.NextKeeps | internal/storage/sqlite/ledger.go:127-200 | every event of the step system keeps the whole invariant, loses no applied commit and alters or removes no committed row |
| Protocol.RunInvariant | internal/application/decision_service.go:51-127 | the invariant holds after every sequence of arrivals, steps, faults and crashes |
| Protocol.Agreement | internal/application/decision_service.go:51-127 | any two successes for one runtime and request, at any two moments of any run, are the same record with the digest of each caller's own action |
| Protocol.AgreementOnActions | internal/application/decision_service.go:51-127 | without a collision between their two texts, callers who succeed under one key asked for the same action |
| Protocol.RowsAreFinal | internal/storage/sqlite/ledger.go:147-178 | over any continuation of any run no committed row changes or disappears |
| Protocol.ReachableTablesConsistent | internal/storage/sqlite/migrations/0001_minimal_ledger.sql:24-49 | in every reachable state, said of the tables alone: same keys, stored digest and runtime match the stored action, effects point to decisions, at most one per decision |
| Protocol.ConflictIsReal | internal/application/decision_service.go:194-210 | a conflict error means a committed row of that key with another digest |
| Idempotence.ConflictExactly | internal/storage/sqlite/ledger.go:155-177 | a working read ends in the conflict error exactly for a readable commit with another digest, and after an insert or commit only when that had not failed; otherwise such a conflict becomes a ledger failure |
| Witnesses.ConflictReportedAsFailure | internal/storage/sqlite/ledger.go:155-160 | a run in which a conflicting caller is told of a ledger failure |
| Idempotence.RetryReturnsTheRecord | internal/application/decision_service.go:72-78 | once a call has returned a record, a call with the same facts that looks at any later moment of any run returns that record and changes nothing, unless its years cannot be read |
| Idempotence.LookStep | internal/application/decision_service.go:72-78 | a working first lookup ends the call with the verdict of the key's commit, exactly when there is one, and changes nothing shared |
| Explained.ErrorsAreExplained | internal/storage/sqlite/ledger.go:127-200 | a caller whose own operations do not fail gets a ledger failure only for an unreadable commit under its key or a commit of its own with two effects, a text SQL takes for blank or an identifier in use; other errors only from the answers it got when it asked the policy |
| Provenance.EmbeddedDecisionsStored | internal/policy/embedded/evaluator.go:26-131 | over all runs with the embedded engine, every committed decision, in the log and decoded from its row, is the one the table gives for its action |
| Provenance.EmbeddedEffectsStored | internal/application/decision_service.go:129-144 | over all runs with the embedded engine, a committed decision has an effect row exactly when its action is labelled SECRET, and the row's context parses to the object with priority HIGH and the action's evidence identifiers in order |
| Provenance.OspreyDecisionsStored | internal/policy/osprey/evaluator.go:50-134 | over all runs with Osprey, every committed decision, decoded from its row, is explained by the verdict texts committed with it as matched rules: each reason exactly when a verdict gives it, ALLOW exactly on review verdicts alone from an engine that answered, the one HIGH review exactly on a review verdict |
| Protocol.LostRaceResolves | internal/storage/sqlite/ledger.go:161-190 | after losing the insert race a working re-read never reports not-found; it gives the winner's record, a conflict, or a ledger failure when the winner's years cannot be read |
| Protocol.ReportedFailureRecovers | internal/storage/sqlite/ledger.go:172-177 | a commit applied but reported as failed is recovered by the re-read, whatever others do in between |
| Protocol.OnlyAppliedCommitsWrite | internal/storage/sqlite/ledger.go:147-178 | only an applied commit changes a table, by exactly its own rows under a key and effect ids that were free; all other steps leave no trace |
| Protocol.LookKeeps | internal/application/decision_service.go:72-78 | the first lookup answers exactly from the applied commit of the key, or moves on when there is none |
| Protocol.StepKeeps | internal/storage/sqlite/ledger.go:127-179 | one caller's step cannot disturb another caller |
| Liveness.UndisturbedCallSucceeds | internal/application/decision_service.go:51-127 | from any reachable state with a free writer slot, a call left alone under a free key, with a storable commit and unused identifiers, returns its own record and commits exactly that |
| Liveness.FirstRequestIsAllowed | internal/application/decision_service.go:51-127 | a concrete request on the empty ledger is allowed and recorded, so the theorems about successes are not vacuous |
| Termination.EveryCallEnds | internal/application/decision_service.go:51-127 | in any reachable state a caller that holds the writer slot or finds it free is answered after eleven of its own steps, under any faults and answers |
| Termination.NoDeadlock | internal/storage/sqlite/ledger.go:147-178 | in any reachable state, after eleven steps of the slot's holder any call is answered after eleven of its own, whatever fails |
| WriteOnce.EventRefines | internal/storage/sqlite/ledger.go:139-178 | every event is one move of a write-once map: put if absent, respond with the stored record, conflict, or error |
| WriteOnce.RunRefines | internal/application/decision_service.go:51-127 | every run, seen through the mapping, starts from the empty map and moves step by step, and no move rebinds a key |
| Storage.DecisionLedger.CommitEvaluation | internal/storage/sqlite/ledger.go:127-179 | under any faults and interference the answer is justified by the key's commit and all-or-nothing; in calm weather exactly the specified outcome |
| Storage.DecisionLedger.InsertAndCommit | internal/storage/sqlite/ledger.go:147-178 | the transaction with its rollback paths and three commit outcomes |
| Storage.DecisionLedger.ResolveCommitRace | internal/storage/sqlite/ledger.go:181-190 | the re-read gives the verdict of the logged commit, a read failure, or not-found when there is none |
| Storage.DecisionLedger.InsertPolicyEffects | internal/storage/sqlite/ledger.go:270-302 | the insert loop equals inserting the effects one by one up to the first refusal |
| Storage.DecisionService.Evaluate | internal/application/decision_service.go:51-127 | answers are justified in any weather; in calm weather answer and tables are exactly the specified outcome |
| Storage.CalmCallSucceeds | internal/application/decision_service.go:51-127 | undisturbed, a call under a free key succeeds exactly when its commit is built with at most one effect, storable texts and unused identifiers |
| Journal.Seal | internal/storage/sqlite/ledger.go:147-178 | committing a fully staged transaction keeps the tables the exact image of the applied commits |
| Journal.StageEffect | internal/storage/sqlite/ledger.go:275-300 | each effect insert adds exactly its row and keeps idempotency keys distinct |
| Journal.LookupReadsLog | internal/storage/sqlite/ledger.go:31-125 | a lookup under a trimmed key returns the applied commit, a failure exactly when its years cannot be read, not-found exactly when there is none |
| Journal.RowsMeaning | internal/storage/sqlite/ledger.go:208-268 | a request row carries digest and text of its commit's action, of the key's own runtime |
| Journal.EffectsMeaning | internal/storage/sqlite/ledger.go:270-302 | the effects stored under a decision are exactly those of the commit that won the key |
| Journal.OneEffectPerDecision | internal/storage/sqlite/migrations/0001_minimal_ledger.sql:75-102 | no decision, hence no (runtime, request, type), has two effects |
| Journal.RecordedConsistent | internal/storage/sqlite/migrations/0001_minimal_ledger.sql:24-49 | the image invariant implies the table invariant that mentions no history |
| Constraints.UncontendedCommit | internal/storage/sqlite/migrations/0001_minimal_ledger.sql:1-102 | alone under a free key, the inserts of a commit pass keys, foreign keys and CHECKs exactly when its texts are storable and its identifiers unused |
| Constraints.RequestRowAccepted | internal/storage/sqlite/migrations/0001_minimal_ledger.sql:1-25 | the request CHECKs, with their JSON extractions, accept a commit's row exactly when both identifiers are nonblank to SQL |
| Constraints.DecisionRowAccepted | internal/storage/sqlite/migrations/0001_minimal_ledger.sql:27-73 | the decision CHECKs accept a commit's row exactly when decision id and policy version are nonblank to SQL |
| Constraints.EffectRowAccepted | internal/storage/sqlite/migrations/0001_minimal_ledger.sql:75-102 | the effect CHECKs accept an encoded effect exactly when its id is nonblank to SQL |
| Constraints.StorableMeaning | internal/application/decision_service.go:174-192 | for commits the service builds, nonblank to SQL means not beginning with NUL |
| Witnesses.NulRequestIsRefused | internal/storage/sqlite/migrations/0001_minimal_ledger.sql:2-3 | a call the service prepares and the encoder accepts, and the empty database refuses |
| Constraints.IdempotencyKeyFree | internal/storage/sqlite/ledger.go:304-312 | a free request finds its idempotency key free unless the hash collides with a logged one |
| Ledger.RowsReadBack | internal/storage/sqlite/ledger.go:31-125 | reading the rows of a commit gives exactly its record when both years have four digits, and fails otherwise; the re-hash never rejects |
| Ledger.LookupRehashes | internal/storage/sqlite/ledger.go:83-125 | whatever the tables hold, a returned evaluation is decoded from the two rows under its trimmed key and its action hashes to the digest of the row |
| Ledger.ExchangedActionRefused | internal/storage/sqlite/ledger.go:87-102 | a row with another action's text beside the digest is a ledger failure unless the hash collides |
| Columns.RequestColumns | internal/storage/sqlite/ledger.go:202-236 | each column of a commit's request row: its type, schema 1, the digest of its action, the tree of its action and its time |
| Columns.DecisionColumns | internal/storage/sqlite/ledger.go:238-268 | each column of its decision row: identifier, type, version, and the three lists parsed back |
| Columns.EffectColumns | internal/storage/sqlite/ledger.go:270-312 | each column of its effect row: pending, never attempted, the priority and references of the commit's own effect, the hash of (runtime, request, type) |
| Ledger.LateRequestIsLost | internal/storage/sqlite/ledger.go:87-110 | whatever commit the encoder accepts, it accepts also as a request made in the year 10000, whose rows cannot be read back |
| Witnesses.LateRecordIsLost | internal/storage/sqlite/ledger.go:87-110 | a run in which a call made in the year 10000 succeeds and the same call again is told of a ledger failure |
| Ledger.UntrimmedKeyIsLost | internal/storage/sqlite/ledger.go:39-40 | in any tables, the rows under a key make no difference to any lookup exactly when the key has outer spaces |
| Ledger.AtMostOneEffect | internal/storage/sqlite/serialization.go:165-190 | the duplicate-type check accepts at most one effect |
| Ledger.EncodeEffects | internal/storage/sqlite/serialization.go:165-219 | the loop over two seen-sets accepts exactly effects with identifiers and values, distinct in both, and encodes them in order |
| Ledger.EncodeEvaluation | internal/storage/sqlite/serialization.go:104-163 | the encoder's scans equal its specification |
| Ledger.IdempotencyKeyBinds | internal/storage/sqlite/ledger.go:304-312 | equal idempotency keys mean equal runtime, request and type unless the hash collides |
| Service.PrepareSound | internal/application/decision_service.go:59-70 | the ledger only ever sees trimmed nonblank identifiers, a normal action of that runtime and its digest; exactly when preparation succeeds |
| Requests.PrepareExactly | internal/application/decision_service.go:51-70 | over raw calls: accepted exactly when both identifiers hold 1 to 256 bytes and the input is acceptable; then key, action and digest are the trimmed identifiers, what the input means, and the sum of that action's canonical text |
| Service.RetryIsTheSameRequest | internal/application/decision_service.go:59-70 | the same facts in any order, repeated, or with outer spaces on the identifiers, prepare to the same key, action and digest |
| Service.BuildExactly | internal/application/decision_service.go:80-144 | a built commit is the prepared request with the composed decision, the trimmed policy version, the policy's rules and the clock, the decision under the first generated identifier and the i-th policy effect, unchanged, under the next |
| Service.BuildFailsExactly | internal/application/decision_service.go:80-192 | when no commit is built and with which error: a policy error exactly for an unusable answer, then an identifier error exactly for a missing or blank identifier, then a clock error |
| Service.BuildCommitSound | internal/application/decision_service.go:80-116 | a built commit passes every check of the encoder but the number of effects: normal action, its digest, well-formed decision, nonblank fields |
| Service.BuildEvaluationCommit | internal/application/decision_service.go:80-116 | validation, composition, identifiers and clock in the source's order |
| Service.PreparePolicyEffects | internal/application/decision_service.go:129-144 | the loop gives the n-th effect the n-th generated identifier and stops at the first failure |
| Service.BuiltCommitEncodes | internal/storage/sqlite/serialization.go:104-163 | the encoder refuses a built commit for exactly one reason, more than one effect |
| Service.EmbeddedCommitAccepted | internal/policy/embedded/evaluator.go:26-58 | with the embedded engine and working ports a commit is built and passes every encoder check exactly when the engine does not fail |
| Service.OspreyCommitAccepted | internal/policy/osprey/evaluator.go:50-72 | with Osprey a commit is built and accepted whatever the coordinator answers, exactly for requested times of four-digit years |
| Service.BuildCommitErrors | internal/application/decision_service.go:80-102 | building fails only with a policy, identifier or clock error |
| Canonical.CanonicalRoundTrip | internal/storage/sqlite/serialization.go:221-329 | decoding the canonical text of a normal action gives it back for years 0 to 9999 and fails for all others |
| Canonical.CanonicalInjective | internal/domain/action_digest.go:17-71 | equal canonical texts mean equal actions, whatever the year |
| Canonical.DigestBinds | internal/domain/action_digest.go:74-81 | digests exist for normal actions and are equal exactly for equal actions unless the hash collides |
| CanonicalForm.CanonicalTextExactly | internal/domain/action_digest.go:17-199 | the canonical text of a normal action, written out to its braces, commas, member names and their order, and its digest |
| CanonicalForm.EscapesExactly | internal/domain/action_digest.go:66-70 | how each character is written inside quotes |
| Canonical.ParametersDecode | internal/storage/sqlite/serialization.go:298-329 | each of the three parameter variants decodes to itself |
| Canonical.ScopeDecodes | internal/domain/action_digest.go:186-199 | an evidence scope survives the omission of its empty fields |
| Json.RoundTrip | internal/domain/action_digest.go:66-70 | every JSON tree parses back from its text |
| Json.RenderInjective | internal/storage/sqlite/ledger.go:309 | different JSON trees have different texts |
| Clock.TimeRoundTrip | internal/storage/sqlite/ledger.go:107-110 | both time layouts parse back exactly for four-digit years and never otherwise |
| Clock.CanonicalTimeExactly | internal/domain/action_digest.go:83 | the canonical layout position by position, with the value of each group of digits |
| Clock.LedgerTimeExactly | internal/storage/sqlite/ledger.go:226 | the stored layout is the canonical one without the zeros that end the fraction |
| Clock.CanonicalTimeInjective | internal/domain/action_digest.go:17-71 | different instants have different canonical texts |
| RawInput.NormalizeExactly | internal/application/action_normalizer.go:101-273 | over raw inputs: accepted exactly when the stated conditions on the given fields hold, a claimed runtime other than the authenticated one refused; the action then has every field as given, identifiers trimmed, tokens trimmed and upper-cased, lists as ascending sets of what was given |
| Normalizer.NormalizeNormal | internal/application/action_normalizer.go:112-177 | whatever is accepted satisfies every domain invariant and carries the authenticated runtime |
| Normalizer.NormalizeIdempotent | internal/application/action_normalizer.go:101-177 | normalising a normal action is the identity |
| Normalizer.NormalizeOrderIrrelevant | internal/application/action_normalizer.go:112-273 | permuting or repeating recipients, targets, labels or evidence within the limits leaves the whole action unchanged |
| Normalizer.NormalizeEvidenceInputs | internal/application/action_normalizer.go:247-273 | the conversion loop followed by set normalisation equals its specification |
| Actions.NormalActionFixed | internal/domain/proposed_action.go:144-195 | constructing an action from a normal action's parts gives it back |
| Text.JoinKeyOrder | internal/domain/action_parameters.go:202-217 | order and equality of keys joined by NUL are those of the (type, id) pairs |
| Text.TrimSplits | internal/domain/principal.go:114-123 | trimming removes spaces at both ends and nothing else |
| Text.UpperLetter | internal/domain/action_parameters.go:18 | upper-casing maps each letter to its capital, spelled out |
| Ascending.AscendingUnique | internal/domain/authorization_evidence.go:118-143 | a strictly ascending list is determined by its elements |
| Ascending.CollectSorted | internal/domain/authorization_evidence.go:133-142 | collecting a map's keys in any order, sorting and looking up yields its values in ascending order |
| Ascending.SortStrings | internal/domain/action_parameters.go:190-194 | sorting permutes and orders |
| Parameters.NormalizeStrings | internal/domain/action_parameters.go:178-196 | the map-and-sort loop equals the set specification, with its count, blank and length errors |
| Parameters.StringSetSemantics | internal/domain/action_parameters.go:178-196 | the result is ascending, duplicate-free and equal as a set to the trimmed input, and a normal list is a fixed point |
| Parameters.StringOrderIrrelevant | internal/domain/action_parameters.go:178-196 | order and repetition do not matter within the count limit |
| Principals.NormalizePrincipals | internal/domain/action_parameters.go:198-219 | the map-and-sort loop equals the set specification |
| Principals.PrincipalSetSemantics | internal/domain/action_parameters.go:198-219 | the result holds exactly the given principals in ascending (type, id) order |
| Evidence.NormalizeAuthorizationEvidence | internal/domain/authorization_evidence.go:118-143 | fails exactly for more than 100 items, an invalid item, or two items that share type and id but differ |
| Evidence.EvidenceSetSemantics | internal/domain/authorization_evidence.go:118-143 | the result is the given evidence as a set in ascending (type, id) order |
| Evidence.EvidenceOrderIrrelevant | internal/domain/authorization_evidence.go:118-143 | order and repetition do not matter within the count limit |
| Decisions.NewDenyDecision | internal/domain/decision.go:40-90 | the two loops with their seen-maps and flag equal the specification |
| Decisions.Compose | internal/application/decision_composer.go:10-23 | the composer with its scans equals the specification |
| Decisions.ComposeFails | internal/application/decision_composer.go:10-23 | composition fails exactly when some reason is not a valid code |
| Decisions.ComposeMeaning | internal/application/decision_composer.go:10-57 | ALLOW exactly for no reasons; otherwise the set of given reasons, the approval reason kept, with one REQUIRE_APPROVAL, exactly when present without a terminal reason |
| Decisions.ComposedOrder | internal/application/decision_composer.go:10-57 | for every composed decision, terminal denies included, the reasons stand in the order of their first occurrence in the given list |
| Decisions.FirstSeenOrder | internal/domain/decision.go:48-60 | deduplication keeps the order of first occurrences |
| Gates.GatesAgreeExactly | internal/storage/sqlite/migrations/0001_minimal_ledger.sql:50-72 | for every decision the encoder lets through, exactly when each two of SQL, decoder, HTTP validator and domain invariant agree |
| Gates.SqlExactly | internal/storage/sqlite/migrations/0001_minimal_ledger.sql:50-72 | what the CHECKs on the stored texts mean for the decision |
| Gates.DecoderExactly | internal/storage/sqlite/serialization.go:339-377 | which decisions decode, and to what: a well-formed one with the distinct reasons |
| Gates.EncoderIsWeakest | internal/storage/sqlite/serialization.go:132-151 | of the decisions the encoder lets through, the other gates all accept exactly the well formed and those that only repeat reasons |
| Gates.FourGateAgreement | internal/transport/http/dto.go:189-227 | corollary: on known codes without repetition the invariant, SQL, the decoder's round trip and HTTP accept the same decisions |
| Gates.ComposedPassesEveryGate | internal/storage/sqlite/serialization.go:132-151 | every composed decision passes all four gates and reads back unchanged |
| Gates.SubstringIsMembership | internal/storage/sqlite/migrations/0001_minimal_ledger.sql:62-72 | the substring search on the printed reasons is membership of the approval reason |
| Gates.DisagreementWitnesses | internal/transport/http/dto.go:208-226 | one concrete decision for each way the gates and the invariant disagree |
| Gates.ValidateResponse | internal/transport/http/dto.go:189-227 | the validator's version check and scans equal its specification |
| Gates.DecodeStoredDecision | internal/storage/sqlite/serialization.go:339-377 | the decoder with its loops equals the decoding specification |
| Embedded.Evaluate | internal/policy/embedded/evaluator.go:26-58 | the rule-by-rule extension of one evaluation equals the specification |
| EmbeddedTable.DecidesExactly | internal/policy/embedded/evaluator.go:26-131 | for every normal action the composed decision is the one of the table over its own fields: a bare ACTOR_NOT_AUTHORIZED exactly when there is evidence and none was issued by this runtime for the one scope of this action, else approval with the one reason of its kind, or ALLOW |
| EmbeddedTable.ForeignEvidenceNeverAuthorises | internal/policy/embedded/evaluator.go:96-111 | evidence of which no piece was issued by the acting runtime leads to the terminal deny |
| EmbeddedTable.ReviewsExactly | internal/policy/embedded/evaluator.go:39-55 | one HIGH review with the evidence identifiers in order exactly for the SECRET label, no effect otherwise |
| EmbeddedTable.RulesExactly | internal/policy/embedded/evaluator.go:11-55 | the list of matched rules and the version, as literal texts |
| Embedded.EmbeddedDecides | internal/policy/embedded/evaluator.go:26-131 | for actions that need not be normal, in the engine's own predicates, which EmbeddedTable reads for normal ones: ALLOW, one approval requirement, or a bare terminal deny |
| Embedded.EmbeddedExplains | internal/policy/embedded/evaluator.go:26-94 | likewise, which reason, which rule and which review, each exactly when |
| Embedded.EmbeddedFails | internal/domain/policy_effect.go:57-78 | evaluation fails exactly for a SECRET payload with an evidence id shared by two types |
| Witnesses.SharedIdentifierFails | internal/domain/policy_effect.go:64-73 | a normal action for which it does |
| Osprey.MapVerdicts | internal/policy/osprey/evaluator.go:74-116 | the loop over a seen-map, a flag and three lists equals the specification |
| VerdictGrammar.GrammarExactly | internal/policy/osprey/evaluator.go:83-138 | the accepted verdicts are exactly "require_delegator_approval." or "create_safety_review." with a key of 1 to 128 characters from [a-z0-9_-], and the four literal deny verdicts, each with its literal reason |
| VerdictGrammar.MappedExactly | internal/policy/osprey/evaluator.go:74-116 | mapping succeeds exactly when every verdict is legal; then the reasons are those the texts stand for, the effect is the one HIGH review without references exactly on a review verdict, the rules are the distinct verdicts |
| VerdictGrammar.MappedOrder | internal/policy/osprey/evaluator.go:74-116 | reasons stand in the order of the first verdict that gives each |
| Osprey.MappingMeaning | internal/policy/osprey/evaluator.go:74-138 | the same in the classifier's terms, with the error |
| Osprey.MappingOrderIrrelevant | internal/policy/osprey/evaluator.go:74-116 | failure, reason set and effects depend on the set of verdicts only |
| VerdictGrammar.OspreyExactly | internal/policy/osprey/evaluator.go:50-134 | after composition: POLICY_UNAVAILABLE alone exactly for no answer or an illegal verdict, ALLOW exactly for an answer of review verdicts only, approval exactly for a legal answer with an approval verdict and without deny.actor_not_authorized |
| VerdictGrammar.OspreyExplained | internal/policy/osprey/evaluator.go:50-134 | the decision and effects are explained by the recorded rules alone, read as verdict texts |
| Osprey.OspreyFailClosed | internal/policy/osprey/evaluator.go:50-134 | the same after composition in the classifier's terms |
| Witnesses.DenyVerdictIsNegotiable | internal/application/decision_composer.go:34-47 | an answer with a deny verdict that composes to REQUIRE_APPROVAL |
| Migrations.CountEqualsMaximum | internal/storage/sqlite/migrations.go:91-103 | distinct positive versions have count equal to maximum exactly when they are 1 to k |
| Migrations.SchemaVersionExact | internal/storage/sqlite/migrations.go:72-103 | the reported version is k exactly for histories 1 to k, an error for all others |
| Migrations.LoadMigrations | internal/storage/sqlite/migrations.go:130-167 | collect, sort and check equal the loading specification |
| Migrations.LoadMeaning | internal/storage/sqlite/migrations.go:136-166 | loading succeeds exactly when all scripts name versions and these are 1 to the latest, each once; nothing is lost or added |
| Migrations.VersionExactly | internal/storage/sqlite/migrations.go:141-148 | a file name stands for version v exactly when it is a numeral of value v, within 64 bits, an underscore and anything |
| Migrations.ScriptsExactly | internal/storage/sqlite/migrations.go:137-140 | the scripts are the listed files, not directories, whose name ends with ".sql", each as often as listed |
| Migrations.LoadedFromFiles | internal/storage/sqlite/migrations.go:137-165 | the loaded migration i + 1 is a listed file of that version, with its own name and contents |
| Migrations.FirstMigration | internal/storage/sqlite/migrations/0001_minimal_ledger.sql:1 | "0001_minimal_ledger.sql" is a script of version 1 |
| MigrationRunner.HistoryIsContiguous | internal/storage/sqlite/migrations.go:30-69 | over all interleaved runs with faults and crashes the history is 1 to k for the k committed scripts, each once and in order |
| MigrationRunner.ScriptsAreFinal | internal/storage/sqlite/migrations.go:105-128 | committed scripts are only ever appended to |
| MigrationRunner.SuccessMeansMigrated | internal/storage/sqlite/migrations.go:65-68 | a successful run means at least its latest version is recorded, then and ever after |
| MigrationRunner.SuccessMeansLatest | internal/storage/sqlite/migrations.go:65-68 | when all runs are of one release, success means the history is exactly 1 to its latest version |
| MigrationRunner.RefusedExactly | internal/storage/sqlite/migrations.go:34-38 | the record insert refuses exactly the versions already recorded; names never clash |
| MigrationRunner.SchemaDatabase.Migrate | internal/storage/sqlite/migrations.go:30-69 | a broken history is left alone; otherwise missing scripts are appended in order, and an undisturbed run succeeds exactly when loading succeeds and the database is not newer |
| MigrationRunner.SchemaDatabase.ApplyMigration | internal/storage/sqlite/migrations.go:105-128 | script and record commit together or not at all |

## Left out

- HTTP serving, routing, strict request decoding, bearer tokens, logging and the command line: transport and wiring.
- gRPC to the Osprey coordinator and its action JSON: the coordinator is an answer, a list of verdicts or nothing.
- SHA-256 itself, random identifiers and the system clock: parameters.
- SQLite internals, WAL, busy timeout, the columns of effect dispatch that an insert leaves null, and the dispatch of effects: only atomic commit, one writer, keys, foreign keys and CHECK predicates are kept.
- SQLite's handling of NUL inside longer texts, beyond `length` stopping at the first one.
- Waiting for the writer slot has no time limit of its own: a timeout is one of the faults.
- Time zone offsets: instants are UTC civil fields, and the time parser reads UTC texts only.
- Case mapping and spaces outside what the constants need: `Text.Upper` maps ASCII letters, where Go maps all of Unicode.
- The JSON parser reads the compact text the encoder prints; white space, surrogate escapes, fractions and case-insensitive field names are not part of it.
- Strings are sequences of Unicode scalars, so invalid UTF-8 is not represented.
- The order of equal versions under `sort.Slice`, which the library leaves open: such a list always fails the check that follows.
- Error texts and wrapping chains: an error enum, and for migrations only success or failure.
- WriteOnce.EventRefines: the abstract map may answer any operation with an error at any time, because its state has no faults; which errors the code can give without a fault of the caller's own is Explained.ErrorsAreExplained, and when a call succeeds is Liveness.UndisturbedCallSucceeds.
- Storage.DecisionService.Evaluate: interference is other callers' whole transactions at the points where this call holds no lock; the finer interleaving is the step system's.
