# Verified models of the repository's hard parts

Dafny models of the programs in this repository whose correctness rests on more
than one function: a token rotation that must survive a crash anywhere, a store
of repair records shared by four state machines, fleet deployments that race for
host locks and garbage-collector roots, and five transformations that other
parts rely on to be reversible, idempotent or exact. `dafny verify
dfyconfig.toml` checks everything.

| files | what they model |
|---|---|
| `TokenRotation`, `TokenRotationSafety`, `TokenRotationRecovery`, `TokenRotationEffects`, `Provisioner` | `vikunja-provision`: planning, issuing, saving, publishing and revoking tokens |
| `RepairRecords`, `JoinMachine`, `JoinRuns`, `JoinEffects`, `DiscMachine`, `DiscRuns`, `DiscEffects`, `ManualMachine`, `ManualEffects`, `CaseStore`, `CaseRuns` | `media-repair` case store: join, Blu-ray, DVD and manual-import executions and the plan bound beside them |
| `FleetProtocol`, `FleetSafety`, `FleetProgress`, `LockDirectory` | `fleet-tools` deploy: host locks, root links, staging and collection |
| `OpaqueIdentity` | the bytes behind opaque capability ids |
| `Aliases`, `DecisionRules` | the planner's short aliases and the decision check |
| `SecretMerge`, `SecretUpdate` | `sops` tools: template merging and secret updates |
| `StorePaths` | store-path normalisation in build diffs |
| `LockGraph` | locked inputs of a flake lock |

How the models are built:

- A run is a function of what it is shown. In token rotation every call draws a
  fault: it succeeds, is refused, takes effect but loses its answer, or is the
  last thing the process does, before or after taking effect. A statement for
  all fault schedules is a statement about every point where a run can stop.
- The classes (`Session`, `Store`, `Directory`, `Secret`, `Collector`,
  `EvidenceList`) change their fields step by step as the programs do. Each
  method is proved to end in the state a specification function gives, and the
  lemmas are about those functions.
- Deployments are interleaved steps of any number of processes. The kernel knows
  which lock files are locked, each process which ones it has open, and neither
  looks at the other's record. A collection may remove any set of paths that no
  root reaches.
- The four repair machines share one file per case. Each decodes it whoever wrote
  it; nothing is known of a foreign document after decoding but its version.
- Each part has both halves: the files named after safety, recovery or runs say what
  no run can break, those named effects or progress what an undisturbed run brings
  about and where everything a record holds came from.
- Hashes are injective constructors, encoders are predicates on what they
  encode, and the decision policy is a parameter.

What the proofs found:

- A crash between issuing a token and saving it leaves a token with the declared
  title that saved state does not name. Later runs for that title are refused
  until someone removes it, with one exception: if nothing was ever saved and no
  other live token has the title, a rotating run takes it over
  (`InterruptedIssueBlocks`; exactly when any run is accepted: `RetryAcceptedIff`,
  `RotationAcceptedIff`).
- Seats are kept only while every run declares them: retiring a token cuts off a
  seat that still holds it and is not declared (`UndeclaredSeatStops`).
- A publish reply may carry a failure written for a discard: the worker schema
  shares the failure type, the guards accept it, and only the validating write
  refuses it (`DiscardReasonOnPublish`; on well-formed input the write never
  refuses: `ValidatingWrite`).
- Preparing the same join import twice is a conflict when the language list is
  empty, because an empty slice is read back as nil (`ImportReplayRecognisedIff`).
- The disc validators do not compare the confirmation with the command; that an
  imported record is rightly confirmed is a property of runs
  (`ValidatorsIgnoreTheConfirmation`, `ReachableImportsAreConfirmed`).
- The plan is frozen only once both a bound plan and an execution exist. A
  repair prepared without a bound plan can have one bound beneath it
  (`LateBindingIsAccepted`, `BindChangesPlanIff`).
- Normalising is not blind to a store path that directly follows the text
  `/nix/store`: the scanner takes that text's prefix first and the path stays as
  it is. `SameUpToPaths` says exactly which paths are told apart.
- A manual-import file id that reads like an alias, for example `file:1`, but has
  none of its own is accepted in projected terms and rejected after restoring
  (`MistakenFileIsRejected`, `AliasLikeFile`).
- An input name with a slash can join to another input's key, and one of the two
  locks is lost (`SlashedNamesCollide`).

## Model

| member | source | states |
|---|---|---|
| `TokenRotationSafety.RunsKeepSeatsAndIds` | apps/vikunja-provision/src/vikunja_provision/workflow.py:176-226 | over every sequence of runs, with a failure, lost answer or crash at any call, a seat that every run declares and that holds the bearer of a live saved token keeps holding one, and no saved id, current or previous, is dropped while its token lives |
| `TokenRotationSafety.RunsFromStartKeepInv` | apps/vikunja-provision/src/vikunja_provision/workflow.py:176-226 | the invariant these results assume holds in every state runs reach from an empty token table with nothing saved |
| `TokenRotationSafety.UndeclaredSeatStops` | apps/vikunja-provision/src/vikunja_provision/workflow.py:211-226 | a seat left out of the declaration that still holds the retired bearer stops working when retirement completes |
| `TokenRotationSafety.RunSafe` | apps/vikunja-provision/src/vikunja_provision/workflow.py:176-226 | one run stopped anywhere keeps working seats working and revokes a token only when no declared seat holds its bearer |
| `TokenRotationSafety.ApplySafe` | apps/vikunja-provision/src/vikunja_provision/workflow.py:176-226 | the same for applying any plan that planning accepted |
| `TokenRotationSafety.IssueAndFinishSafe` | apps/vikunja-provision/src/vikunja_provision/workflow.py:197-226 | the same for the issuing branch from any state with a bot |
| `TokenRotationSafety.IssueOutcomes` | apps/vikunja-provision/src/vikunja_provision/workflow.py:197-242 | an issuing run can stop in five worlds only: nothing done, issued, issued and revoked again, saved, or somewhere in publication and retirement |
| `TokenRotationSafety.FinishSafe` | apps/vikunja-provision/src/vikunja_provision/workflow.py:211-226 | publishing, then revoking, then forgetting is safe wherever it stops |
| `TokenRotationSafety.RetireSafe` | apps/vikunja-provision/src/vikunja_provision/workflow.py:216-226 | the previous id is cleared only once its token is gone, and only after all seats moved |
| `TokenRotationSafety.PublishEffect` | apps/vikunja-provision/src/vikunja_provision/distribution.py:26-40 | publication changes seats only, each only to the new bearer, and completes only when every seat holds it |
| `TokenRotationRecovery.InterruptedRotationRecovers` | apps/vikunja-provision/src/vikunja_provision/workflow.py:43-93 | after any interruption past the save, and any number of further interrupted runs, one failure-free run without rotation completes and leaves a state whose plan has no changes and no seat updates |
| `TokenRotationRecovery.RetryAcceptedIff` | apps/vikunja-provision/src/vikunja_provision/workflow.py:55-78 | in every state the runs reach, a run without rotation is accepted exactly when the expiry is ahead and saved state is clean (the saved token is the declared one, the declaration is the saved one, projects resolve, no unsaved live token carries the title) or, with nothing saved, projects resolve and no live token carries the title |
| `TokenRotationRecovery.RotationAcceptedIff` | apps/vikunja-provision/src/vikunja_provision/workflow.py:132-154 | rotation is accepted exactly when none is pending and no unsaved live token carries the declared title; with nothing saved, when at most one live token carries it |
| `TokenRotationRecovery.InterruptedIssueBlocks` | apps/vikunja-provision/src/vikunja_provision/workflow.py:119-154 | after stopping between issuing and saving, a run for the same title without rotation is refused, and a rotating one is accepted exactly when this was the first issue, no other live token has the title, the expiry is ahead and projects resolve |
| `TokenRotationRecovery.InterruptedIssueElsewhere` | apps/vikunja-provision/src/vikunja_provision/workflow.py:132-154 | a later run that declares another title is accepted as if the interrupted issue had not happened |
| `TokenRotationRecovery.SavedButRevokedIsStuck` | apps/vikunja-provision/src/vikunja_provision/workflow.py:132-154 | were a save to take effect and be reported failed, so that the saved token is then revoked, a run without rotation is always refused, and a rotating one is accepted exactly when this was the first issue under the title, the server is the same, at most one live token has the later title, the expiry is ahead and projects resolve |
| `TokenRotationRecovery.TitledIsManaged` | apps/vikunja-provision/src/vikunja_provision/workflow.py:132-154 | when a plan that issues is accepted, the managed token is the only live one with the declared title |
| `TokenRotationRecovery.SavedRunIsClean` | apps/vikunja-provision/src/vikunja_provision/workflow.py:197-226 | a run that saved new credentials leaves a state the next run accepts, wherever it then stopped |
| `TokenRotationRecovery.RetryKeepsClean` | apps/vikunja-provision/src/vikunja_provision/workflow.py:176-226 | a run without rotation keeps that, whatever fails |
| `TokenRotationRecovery.CleanRunSettles` | apps/vikunja-provision/src/vikunja_provision/workflow.py:176-226 | one failure-free run without rotation settles every such state |
| `TokenRotationRecovery.SharesSettle` | apps/vikunja-provision/src/vikunja_provision/workflow.py:176-195 | failure-free share calls leave no share to update and touch no other project |
| `TokenRotationEffects.CallOutcomes` | apps/vikunja-provision/src/vikunja_provision/workflow.py:176-226 | what can come of a server call: done, or failed or cut short, each with or without having taken effect |
| `TokenRotationEffects.WriteOutcomes` | apps/vikunja-provision/src/vikunja_provision/workflow.py:229-242 | what can come of a SOPS write: the same, but one that fails has not taken effect |
| `TokenRotationEffects.IssuingRunCompletes` | apps/vikunja-provision/src/vikunja_provision/workflow.py:197-226 | in every state the runs reach, an accepted failure-free run that rotates, or finds nothing saved, ends with the new token live as declared, the formerly managed token and no other gone, the new credentials saved with nothing pending, and its bearer in every declared seat and no other seat touched |
| `TokenRotationEffects.KeepingRunCompletes` | apps/vikunja-provision/src/vikunja_provision/workflow.py:197-226 | an accepted failure-free run without rotation over saved credentials issues nothing, deletes exactly the token pending retirement, clears the pending id and leaves the saved bearer in every declared seat |
| `TokenRotationEffects.NoTokenWithoutNeed` | apps/vikunja-provision/src/vikunja_provision/workflow.py:75-81 | whatever fails, a run without rotation over saved credentials adds no token |
| `TokenRotationEffects.FailedSaveIsUndone` | apps/vikunja-provision/src/vikunja_provision/workflow.py:229-242 | when the save fails and the revocation goes through, the server has the tokens it had before |
| `TokenRotationEffects.RunGrantsShares` | apps/vikunja-provision/src/vikunja_provision/workflow.py:189-195 | a failure-free run leaves every declared project shared with its permission and no other share touched |
| `TokenRotationEffects.AccessExact` | apps/vikunja-provision/src/vikunja_provision/workflow.py:96-116 | projects resolve exactly when every declared title names one project, and each grant then names it and says whether its share must change |
| `TokenRotationEffects.ReportExact` | apps/vikunja-provision/src/vikunja_provision/workflow.py:79-93 | a plan lists exactly the changes that are due: bot, shares, token and retirement |
| `TokenRotationEffects.SeatPlanExact` | apps/vikunja-provision/src/vikunja_provision/distribution.py:15-24 | the seats listed are exactly the declared ones that do not hold the bearer |
| `TokenRotationEffects.PublishesExactly` | apps/vikunja-provision/src/vikunja_provision/distribution.py:26-41 | a failure-free publication leaves the bearer in every declared seat and every other seat as it was |
| `TokenRotationEffects.MatchDetermines` | apps/vikunja-provision/src/vikunja_provision/models.py:128-135 | an issued token matches another specification exactly when title, expiry, permission groups and the set of actions in each group agree |
| `Provisioner.Session.Provision` | apps/vikunja-provision/src/vikunja_provision/workflow.py:43-93 | the step-by-step run, which plans, inspects seats and applies, ends in exactly the state the run function gives for the same faults |
| `Provisioner.Session.ApplyPlan` | apps/vikunja-provision/src/vikunja_provision/workflow.py:176-226 | applying a plan call by call gives the specified state and status |
| `Provisioner.Session.PublishTo` | apps/vikunja-provision/src/vikunja_provision/distribution.py:26-40 | the publication loop gives the specified seats, one read and at most one write per seat |
| `Provisioner.Session.SaveNew` | apps/vikunja-provision/src/vikunja_provision/workflow.py:229-242 | a failed save is followed by an attempt to revoke the new token |
| `Provisioner.Session.InspectSeats` | apps/vikunja-provision/src/vikunja_provision/distribution.py:15-24 | the inspection loop lists the seats whose value differs from the saved bearer |
| `JoinRuns.UpdateAgreesWithValidator` | pkgs/media-repair/internal/casestore/join_execution.go:419-527 | any guarded step on a valid record gives a record the separately written validator accepts exactly when its input is well formed |
| `JoinRuns.ValidatingWrite` | pkgs/media-repair/internal/casestore/join_execution.go:338-381 | the validating write never refuses a guarded step on well-formed input, and what it writes is valid |
| `JoinRuns.DiscardReasonOnPublish` | pkgs/media-repair/internal/casestore/join_execution.go:559-599 | a publish reply carrying a discard failure is encodable, passes every guard, and is refused only by the validating write |
| `JoinRuns.StageVerdict` | pkgs/media-repair/internal/casestore/join_execution.go:601-628 | a stage leads to a publishable artifact exactly when verification has no rejection |
| `JoinRuns.StageAgrees` | pkgs/media-repair/internal/casestore/join_execution.go:178-235 | recording a stage gives a record the validator accepts exactly on well-formed input |
| `JoinRuns.PublishAgrees` | pkgs/media-repair/internal/casestore/join_execution.go:237-289 | recording a publication gives a record the validator accepts exactly on well-formed input |
| `JoinRuns.DiscardAgrees` | pkgs/media-repair/internal/casestore/join_execution.go:291-336 | recording a discard gives a record the validator accepts exactly on well-formed input |
| `JoinRuns.ImportAgrees` | pkgs/media-repair/internal/casestore/join_import_execution.go:24-168 | every import step gives a record the validator accepts |
| `JoinRuns.UpdateMovesForward` | pkgs/media-repair/internal/casestore/join_execution.go:202-336 | every step keeps the identity, sets each evidence field at most once and lowers the state rank |
| `JoinRuns.WriteLowersMeasure` | pkgs/media-repair/internal/casestore/join_execution.go:669-675 | every write, a reset of a legacy discarded join included, lowers a measure |
| `JoinRuns.BoundedWrites` | pkgs/media-repair/internal/casestore/join_execution.go:125-176 | writes over any run are bounded by the measure the run started with |
| `JoinRuns.ResetAtMostOnce` | pkgs/media-repair/internal/casestore/join_execution.go:145-176 | over any run a preparation writes over a record at most once, only over a legacy one, and never in a run from an empty slot or a record of the present scheme |
| `JoinRuns.ReplayWritesNothing` | pkgs/media-repair/internal/casestore/join_execution.go:630-645 | delivering the same event again at once leaves the stored record as it is, whatever plan and time then apply |
| `JoinRuns.EventWritesOnce` | pkgs/media-repair/internal/casestore/join_execution.go:202-336 | an event that wrote once never writes again, whatever calls come between, short of the reset of a legacy record |
| `JoinRuns.ImportReplayRecognisedIff` | pkgs/media-repair/internal/casestore/join_import_execution.go:24-58 | preparing the same import again is recognised exactly when the command has languages; an empty list is read back as nil and the repeat is a conflict |
| `JoinRuns.RunsStayValid` | pkgs/media-repair/internal/casestore/join_execution.go:338-381 | every record any run stores is valid |
| `JoinRuns.RunsWriteOnce` | pkgs/media-repair/internal/casestore/join_execution.go:205-336 | over all calls on a record of the present scheme, and between preparations on a legacy one, artifact, destination, command and history id are written at most once and the identity is fixed |
| `JoinRuns.PublishedWasVerified` | pkgs/media-repair/internal/casestore/join_execution.go:178-289 | whatever a run published was first staged for this record's authorisation and execution with no verification rejection, as that very artifact, and then published to that very destination, each by a call that wrote to this very execution |
| `JoinRuns.ImportedWasVerified` | pkgs/media-repair/internal/casestore/join_import_execution.go:98-144 | whatever a run brought to an import state was staged for its authorisation and execution, verified and published in that order by calls that wrote to it, and an imported record has a newer, matching confirmation |
| `JoinRuns.ImportStateEvidence` | pkgs/media-repair/internal/casestore/join_import_execution.go:196-242 | a valid record in an import state holds its publication and command, and if imported a newer confirmation of that file |
| `JoinEffects.EvidenceWasSaid` | pkgs/media-repair/internal/casestore/join_import_execution.go:24-144 | every piece of evidence in a record a run leaves was said by a call that wrote to this execution: the verdict, the artifact and destination, the failure, the command with its history baseline and preparation time from the stored case's template, the command number, and a confirmation for that file newer than the baseline asked for |
| `JoinEffects.EvidenceInOrder` | pkgs/media-repair/internal/casestore/join_import_execution.go:24-144 | those calls came in order: verdict before destination before import request before command number or confirmation, verdict before discard |
| `JoinEffects.VerifiedIff` | pkgs/media-repair/internal/joinverification/validator.go:54-130 | verification finds nothing exactly when request and answer are well-formed and belong together, the parts are the authorised files, and size, duration, container and streams of the output are right |
| `JoinEffects.PublishedOutputIsRight` | pkgs/media-repair/internal/joinverification/validator.go:103-130 | whatever a run published was staged from the authorised parts by a call whose answer has that size, duration, container and streams |
| `JoinEffects.ReachedStateFits` | pkgs/media-repair/internal/casestore/join_execution.go:419-527 | in every record a run leaves the state says exactly which evidence there is, and its times are in order |
| `JoinEffects.UnsoundIsRefused` | pkgs/media-repair/internal/casestore/join_execution.go:404-527 | whatever wrote it, a record whose identity, times, evidence or confirmation do not fit together is neither changed nor acknowledged by any call |
| `JoinEffects.MismatchedStageIsRefused` | pkgs/media-repair/internal/casestore/join_execution.go:190-203 | a stage that is for another authorisation, or whose answer is to another request, is refused before the file is opened |
| `JoinEffects.RecordsWereCreated` | pkgs/media-repair/internal/casestore/join_execution.go:125-176 | every record a run leaves was created by a preparation for its authorisation, at its preparation time, that the plan then allowed |
| `JoinEffects.WriteStamps` | pkgs/media-repair/internal/casestore/join_execution.go:338-381 | a write carries its call's time, never an earlier one than the record's, under the record's own case id; a preparation writes the fresh record of what the plan allows |
| `JoinEffects.UpdatedByLastWrite` | pkgs/media-repair/internal/casestore/join_execution.go:338-381 | a record that changed carries the time of one of the calls |
| `JoinEffects.AcknowledgedIff` | pkgs/media-repair/internal/casestore/join_execution.go:202-336 | an update is acknowledged without a write exactly when the record as it is read already says the same |
| `JoinEffects.PreparedAgain` | pkgs/media-repair/internal/casestore/join_execution.go:145-176 | preparing again keeps a record of the same authorisation, replaces one discarded under the former identity and refuses any other |
| `JoinEffects.StageIsWritten` | pkgs/media-repair/internal/casestore/join_execution.go:178-235 | a matching stage of a prepared record is written: ready, to be discarded or failed, as the answer and verification say |
| `JoinEffects.PublishIsWritten` | pkgs/media-repair/internal/casestore/join_execution.go:237-289 | a ready artifact's publication, or its failure, is written |
| `JoinEffects.DiscardIsWritten` | pkgs/media-repair/internal/casestore/join_execution.go:291-336 | a rejected artifact's discard, or its failure, is written |
| `JoinEffects.ImportIsWritten` | pkgs/media-repair/internal/casestore/join_import_execution.go:24-58 | a published record's import is written with the command and history baseline asked for |
| `JoinEffects.RequestIsWritten` | pkgs/media-repair/internal/casestore/join_import_execution.go:60-96 | the command number of a prepared import is written |
| `JoinEffects.ConfirmationIsWritten` | pkgs/media-repair/internal/casestore/join_import_execution.go:98-144 | a newer confirmation for the command's file is written |
| `JoinEffects.FailureIsWritten` | pkgs/media-repair/internal/casestore/join_import_execution.go:146-168 | the failure of a requested import is written |
| `JoinEffects.SuccessfulJoinIsImported` | pkgs/media-repair/internal/casestore/join_execution.go:125-289 | from an empty slot, a join whose output verifies and whose publication and import are reported ends imported, with all of it on record |
| `DiscRuns.UpdateAgreesWithValidator` | pkgs/media-repair/internal/casestore/remux_execution.go:359-463 | any guarded step on a valid Blu-ray or DVD record gives a record the validators accept |
| `DiscRuns.ValidatingWriteNeverRefuses` | pkgs/media-repair/internal/casestore/remux_execution.go:321-357 | the validating write refuses no call on a disc record |
| `DiscRuns.StageBlurayAgrees` | pkgs/media-repair/internal/casestore/remux_execution.go:191-238 | recording a Blu-ray stage gives a record the validator accepts |
| `DiscRuns.StageDvdAgrees` | pkgs/media-repair/internal/casestore/dvd_execution.go:102-144 | recording a DVD stage gives a record the validator accepts |
| `DiscRuns.UpdateMovesForward` | pkgs/media-repair/internal/casestore/remux_execution.go:191-274 | every step keeps the identity, sets each evidence field at most once, lowers the state rank and leaves imports confirmed |
| `DiscRuns.ReachableImportsAreConfirmed` | pkgs/media-repair/internal/casestore/remux_import_execution.go:74-94 | every imported disc record a run reaches has a confirmation newer than the recorded history id and matching the command's movie, download and path; writes are bounded |
| `DiscRuns.ValidatorsIgnoreTheConfirmation` | pkgs/media-repair/internal/casestore/remux_execution.go:430-458 | the validators alone do not give that: any valid imported record stays valid under another well-formed confirmation, an older one included |
| `DiscRuns.ArtifactsWereVerified` | pkgs/media-repair/internal/casestore/remux_execution.go:276-319 | whatever artifact a disc record carries was staged and verified by one of the run's calls for that authorisation |
| `DiscRuns.PublishedWasVerified` | pkgs/media-repair/internal/casestore/remux_execution.go:240-274 | whatever a disc record published was staged and verified by one call and published by a later one naming that artifact, the staged root and a path made from the staged one |
| `DiscRuns.RunsWriteOnce` | pkgs/media-repair/internal/casestore/dvd_execution.go:146-177 | identity and evidence are fixed once written; a disc record is never reset |
| `DiscRuns.ReplayWritesNothing` | pkgs/media-repair/internal/casestore/remux_import_execution.go:11-112 | delivering the same event again at once leaves the stored record as it is |
| `DiscRuns.EventWritesOnce` | pkgs/media-repair/internal/casestore/remux_execution.go:191-274 | an event that wrote once never writes again, whatever calls come between |
| `DiscEffects.EvidenceWasSaid` | pkgs/media-repair/internal/casestore/remux_import_execution.go:11-95 | every piece of evidence in a disc record was said by a call that wrote it: the authorisation, the request, the artifact, the destination, the failure, the command with its history baseline from the stored case's template, the command number and the confirmation, which is for that file and newer than the baseline asked for |
| `DiscEffects.EvidenceInOrder` | pkgs/media-repair/internal/casestore/remux_import_execution.go:11-95 | those calls came in order, from the preparation to the confirmation |
| `DiscEffects.ArtifactIsRight` | pkgs/media-repair/internal/casestore/remux_execution.go:191-238 | whatever artifact a disc record carries was staged from the authorised files with the authorised duration, to 5 s or 15 s for a DVD, chapters and streams, as Matroska |
| `DiscEffects.PublishedBesideSource` | pkgs/media-repair/internal/casestore/remux_execution.go:308-319 | a published disc lies under the staged root beside the disc's directory, two levels above the playlist or one above the navigation file, under its artifact's name |
| `DiscEffects.ReachedStateFits` | pkgs/media-repair/internal/casestore/remux_execution.go:359-463 | in every disc record a run leaves the state says exactly which evidence there is, and its times are in order |
| `DiscEffects.UnsoundIsRefused` | pkgs/media-repair/internal/casestore/dvd_execution.go:246-335 | whatever wrote it, a record that mixes the kinds of disc, or whose identity, sizes, times or evidence do not fit together, is neither changed nor acknowledged by any call |
| `DiscEffects.WriteStamps` | pkgs/media-repair/internal/casestore/remux_execution.go:321-357 | a write carries its call's time, never an earlier one than the record's; a preparation writes the fresh record of what the plan allows |
| `DiscEffects.AcknowledgedIff` | pkgs/media-repair/internal/casestore/remux_import_execution.go:11-112 | an update of a rightly confirmed record is acknowledged without a write exactly when the record already says the same |
| `DiscEffects.PreparedAgain` | pkgs/media-repair/internal/casestore/dvd_execution.go:47-100 | preparing again keeps a record of the same authorisation and refuses any other |
| `DiscEffects.BlurayStageIsWritten` | pkgs/media-repair/internal/casestore/remux_execution.go:191-238 | a matching stage of a prepared Blu-ray is written, its failure or its accepted output, and refused exactly when the output is not accepted |
| `DiscEffects.DvdStageIsWritten` | pkgs/media-repair/internal/casestore/dvd_execution.go:102-144 | the same for a DVD |
| `DiscEffects.PublishIsWritten` | pkgs/media-repair/internal/casestore/remux_execution.go:240-274 | a staged disc's publication, or its failure, is written |
| `DiscEffects.BlurayIsPublished` | pkgs/media-repair/internal/casestore/remux_execution.go:135-274 | from an empty slot, an authorised Blu-ray remux with an accepted output ends published, with all of it on record |
| `DiscEffects.DvdIsPublished` | pkgs/media-repair/internal/casestore/dvd_execution.go:47-177 | the same for a DVD |
| `DiscEffects.ImportIsWritten` | pkgs/media-repair/internal/casestore/remux_import_execution.go:11-37 | a published disc's import is written with the command and history baseline asked for |
| `DiscEffects.RequestIsWritten` | pkgs/media-repair/internal/casestore/remux_import_execution.go:39-63 | the command number of a prepared import is written |
| `DiscEffects.ConfirmationIsWritten` | pkgs/media-repair/internal/casestore/remux_import_execution.go:65-95 | a newer confirmation for the command's file is written |
| `DiscEffects.FailureIsWritten` | pkgs/media-repair/internal/casestore/remux_import_execution.go:97-112 | the failure of a requested import is written |
| `DiscMachine.CheckSources` | pkgs/media-repair/internal/casestore/remux_execution.go:465-488 | the subtracting size loop never leaves the 64-bit range and accepts exactly the sound file lists that add up to the authorised bytes |
| `DiscMachine.CheckRemuxShape` | pkgs/media-repair/internal/casestore/remux_execution.go:465-488 | the Blu-ray authorisation check accepts exactly the specified shapes |
| `DiscMachine.CheckDvdShape` | pkgs/media-repair/internal/casestore/dvd_execution.go:217-244 | the DVD authorisation check accepts exactly the specified shapes, navigation file among the sources |
| `ManualMachine.ValidatingWrite` | pkgs/media-repair/internal/casestore/execution.go:270-316 | the validating write refuses a guarded step only for a malformed authorisation, and what it writes is valid |
| `ManualMachine.CallWrites` | pkgs/media-repair/internal/casestore/execution.go:99-153 | every write lowers a measure and keeps the identity, and a record is prepared once |
| `ManualMachine.BoundedWrites` | pkgs/media-repair/internal/casestore/execution.go:270-316 | writes over any run are bounded by the measure the run started with, so at most three calls ever write |
| `ManualMachine.ReplayWritesNothing` | pkgs/media-repair/internal/casestore/execution.go:155-268 | delivering the same event again at once leaves the stored record as it is |
| `ManualMachine.EventWritesOnce` | pkgs/media-repair/internal/casestore/execution.go:155-268 | an event that wrote once never writes again, whatever calls come between |
| `ManualMachine.ImportedWasConfirmed` | pkgs/media-repair/internal/casestore/execution.go:189-243 | every record a run leaves is valid, and an imported one was confirmed by a call for the authorised file with a newer history id |
| `ManualEffects.EvidenceWasSaid` | pkgs/media-repair/internal/casestore/execution.go:99-243 | every record a run leaves was created by a preparation the plan allowed, with the history baseline that call asked for; its command number and its confirmation are those a call reported, the confirmation for the authorised file and newer than that baseline |
| `ManualEffects.PreparedFirst` | pkgs/media-repair/internal/casestore/execution.go:99-243 | everything else was said after the preparation |
| `ManualEffects.ReachedStateFits` | pkgs/media-repair/internal/casestore/execution.go:372-423 | in every record a run leaves the state fits the evidence and the times are in order |
| `ManualEffects.UnsoundIsRefused` | pkgs/media-repair/internal/casestore/execution.go:354-423 | whatever wrote it, a record whose fields, times or evidence do not fit its state is neither changed nor acknowledged by any call |
| `ManualEffects.PreparationIsWritten` | pkgs/media-repair/internal/casestore/execution.go:99-153 | an authorised well-formed preparation on an empty slot is written with the baseline it asks for |
| `ManualEffects.StepsAreWritten` | pkgs/media-repair/internal/casestore/execution.go:155-268 | a prepared import's command number, its confirmation and its failure are written |
| `ManualEffects.AcknowledgedIff` | pkgs/media-repair/internal/casestore/execution.go:139-268 | a call on a record is acknowledged without a write exactly when the record already says the same |
| `CaseStore.PlanAndIdentityFreeze` | pkgs/media-repair/internal/casestore/execution_plan.go:52-79 | over every interleaving of binding and all other calls on a file that claims no other machine's version, an execution's kind and authorised identity never change, nor does a plan bound beside it |
| `CaseStore.ReachedIdentityFreezes` | pkgs/media-repair/internal/casestore/execution_plan.go:52-79 | from an empty slot, whatever exists after some calls keeps its kind, identity and bound plan over all calls that follow |
| `CaseStore.StepKeepsIdentity` | pkgs/media-repair/internal/casestore/join_execution.go:142-159 | the same for one call of any of the four machines, each of which decodes the shared file whoever wrote it |
| `CaseStore.ForeignIsRefused` | pkgs/media-repair/internal/casestore/join_execution.go:404-422 | a file one machine wrote is refused by the readers of the others, whatever decoding makes of its fields, because their validators check the version |
| `CaseStore.StepStaysVersioned` | pkgs/media-repair/internal/casestore/remux_execution.go:567-573 | every file a call writes carries its own machine's version |
| `CaseStore.BindChangesPlanIff` | pkgs/media-repair/internal/casestore/execution_plan.go:31-80 | binding changes the plan file exactly when the plan is bindable, differs, and not both a plan and an execution exist |
| `CaseStore.LateBindingIsAccepted` | pkgs/media-repair/internal/casestore/execution_plan.go:52-79 | an execution without a bound plan does not stop a reconsidered plan from being bound beneath it |
| `CaseStore.BoundPlanIsInForce` | pkgs/media-repair/internal/casestore/execution_plan.go:31-80 | a plan of this case with acceptable fields is the one in force after binding, with its decision, reconsideration and overrides, unless a bound plan and an execution have frozen the slot; any other binding leaves the slot as it is |
| `CaseStore.PlanAcceptedIff` | pkgs/media-repair/internal/casestore/execution_plan.go:115-142 | a plan record is built exactly for an encodable decision of the case that is unchanged, or changed under a reconsideration digest with overrides within the limit, and holds all the plan says |
| `CaseStore.PlanReadableIff` | pkgs/media-repair/internal/casestore/execution_plan.go:180-202 | a stored plan is readable under exactly the same conditions on its fields |
| `CaseStore.InForceIff` | pkgs/media-repair/internal/casestore/execution_plan.go:82-104 | what is in force is the stored case with the bound decision, reconsideration and overrides, the stored case when nothing is bound, and nothing when the bound plan is unreadable |
| `CaseStore.CreatedUnderPlanInForce` | pkgs/media-repair/internal/casestore/execution.go:121-137 | a preparation that creates a record was authorised by the plan in force at that moment |
| `CaseStore.NewPlanIsValid` | pkgs/media-repair/internal/casestore/execution_plan.go:115-142 | every plan record that is built is accepted by the stored-plan validator |
| `CaseStore.Store.BindExecutionPlan` | pkgs/media-repair/internal/casestore/execution_plan.go:31-80 | binding succeeds exactly when the plan fits and the slot is not frozen on another plan, and then the plan asked for is in force; otherwise the slot is as before; other cases are left alone |
| `CaseStore.Store.DeliverJoin` | pkgs/media-repair/internal/casestore/join_execution.go:338-381 | a join call is the specified step on that case and leaves other cases alone |
| `CaseStore.Store.DeliverDisc` | pkgs/media-repair/internal/casestore/remux_execution.go:321-357 | a disc call is the specified step on that case and leaves other cases alone |
| `CaseStore.Store.DeliverManual` | pkgs/media-repair/internal/casestore/execution.go:270-316 | a manual-import call is the specified step on that case and leaves other cases alone |
| `CaseRuns.StoreJoinIsMachineRun` | pkgs/media-repair/internal/casestore/join_execution.go:338-381 | over every run of the store from a slot that is empty or holds a join, the join record it leaves is the one the join machine reaches on the run's join calls, whatever other calls come between |
| `CaseRuns.StoreDiscIsMachineRun` | pkgs/media-repair/internal/casestore/remux_execution.go:321-357 | the same for disc records |
| `CaseRuns.StoreManualIsMachineRun` | pkgs/media-repair/internal/casestore/execution.go:270-316 | the same for manual-import records |
| `CaseRuns.PlannedRepairIsPrepared` | pkgs/media-repair/internal/casestore/join_execution.go:125-176 | a well-formed join, Blu-ray or DVD repair the plan in force authorises can be prepared in an empty slot, and is then on record |
| `CaseRuns.PlannedManualImportIsPrepared` | pkgs/media-repair/internal/casestore/execution.go:99-153 | the same for a manual import, with its history baseline |
| `CaseRuns.ShownToCalls` | pkgs/media-repair/internal/casestore/join_execution.go:383-394 | a call is shown the grants of the plan in force, none without one, and the stored case's own import template |
| `FleetSafety.StagedSourceSurvives` | apps/fleet-tools/src/deploy/system_backend.rs:347-390 | in every interleaving of deployments, sweeps, collections, failures and deaths, a staged source is in the store and rooted by every selected host, and no collection may remove it |
| `FleetSafety.StagedUntilReleased` | apps/fleet-tools/src/deploy/workflow.rs:57-114 | a staged deployment keeps its source until it gives up its lock or dies |
| `FleetSafety.StagedThroughout` | apps/fleet-tools/src/deploy/workflow.rs:57-114 | over a whole run a staged deployment keeps its source, and the source stays in the store, through every step until it gives up its lock or dies |
| `FleetSafety.LocksAreExclusive` | apps/fleet-tools/src/file_lock.rs:31-37 | in every interleaving, with a kernel that records no holder and processes that consult only the kernel, no two processes hold the same host, the locked files are exactly those live processes hold, and each holds the lock values in scope where it is |
| `FleetSafety.LocksStayExclusive` | apps/fleet-tools/src/deploy/state.rs:76-101 | taking only what the kernel says is free and releasing only what one holds keeps every lock with one holder |
| `FleetSafety.RootsChangedByOwner` | apps/fleet-tools/src/deploy/state.rs:27-51 | a root link is created, replaced or removed only while the acting process and no other holds its host's lock, although no step that touches links looks at a lock; sweep and drop included |
| `FleetSafety.LocksChangedByActor` | apps/fleet-tools/src/deploy/state.rs:76-101 | a step locks or unlocks a file only as the acting process takes or gives it up, and leaves what others hold |
| `FleetSafety.LockReturnsExactly` | apps/fleet-tools/src/deploy/state.rs:53-65 | when lock returns, the process holds exactly the requested hosts and none has a root |
| `FleetSafety.LeavesHoldingNothing` | apps/fleet-tools/src/deploy/state.rs:53-74 | a process that gave up because a host was busy or anything else failed holds nothing when it leaves |
| `FleetSafety.SweepSkipsOnlyBusyHosts` | apps/fleet-tools/src/deploy/state.rs:103-118 | a host the sweep leaves was requested by the process itself or owned by another live process at that moment |
| `FleetSafety.SweepsSkipOnlyBusyHosts` | apps/fleet-tools/src/deploy/state.rs:103-118 | in every run each host a sweep visits was requested, is held by another live process at that moment, or is emptied |
| `FleetSafety.BusyNeedNotBeADeployment` | apps/fleet-tools/src/deploy/state.rs:67-101 | a refused try-lock may be due to another process's sweep of an idle host |
| `FleetSafety.OthersUndisturbed` | apps/fleet-tools/src/deploy/system_backend.rs:264-306 | a step leaves every other process with its phase, locks and roots |
| `FleetSafety.RunsKeepInv` | apps/fleet-tools/src/deploy/workflow.rs:57-114 | the invariant behind these holds in every state of every run |
| `FleetProgress.CanDeploy` | apps/fleet-tools/src/deploy/workflow.rs:57-114 | from every state of every run in which its hosts are free, a new deployment can by itself lock exactly those hosts and stage any source in all of them |
| `FleetProgress.GivesUpOnlyOnBusyHosts` | apps/fleet-tools/src/deploy/state.rs:67-74 | a step other than giving up on an error that moves an acquiring process to releasing found the host it tried held by another live process |
| `FleetProgress.CanLeave` | apps/fleet-tools/src/deploy/state.rs:27-34 | from wherever it is, a process can leave with its hosts unlocked and without a root, and no other host's lock or root touched |
| `FleetProgress.LeftSourceIsCollectable` | apps/fleet-tools/src/deploy/system_backend.rs:264-306 | once a deployment has left, its source can be collected unless a root elsewhere keeps it |
| `FleetProgress.HelperStaysRooted` | apps/fleet-tools/src/deploy/system_backend.rs:229-240 | a helper built by a staged deployment is stored and rooted in its host until that deployment gives up, dies or builds another one under the same name |
| `LockDirectory.Directory.Lock` | apps/fleet-tools/src/deploy/state.rs:53-65 | lock succeeds exactly when all requested hosts are free and all links to remove can be removed; on failure the locked files and the caller's locks are as before, on success both grew by exactly the distinct requested hosts, and visited idle hosts are empty |
| `LockDirectory.Directory.TakeHosts` | apps/fleet-tools/src/deploy/state.rs:53-74 | all requested hosts are taken or none |
| `LockDirectory.Directory.TryLockHost` | apps/fleet-tools/src/deploy/state.rs:76-101 | busy, broken or taken as the locked files and the host's links decide; a taken host is empty |
| `LockDirectory.Directory.Sweep` | apps/fleet-tools/src/deploy/state.rs:103-118 | the sweep empties every visited unlocked host outside the request and holds no further lock afterwards |
| `LockDirectory.Directory.ClearRoots` | apps/fleet-tools/src/deploy/state.rs:36-51 | clearing succeeds exactly when no link of the host resists removal, and touches no other host |
| `LockDirectory.Directory.DropHost` | apps/fleet-tools/src/deploy/state.rs:27-34 | dropping clears the host's links before it unlocks, and unlocks in any case |
| `OpaqueIdentity.EncodeInjective` | pkgs/media-repair/internal/casebuilder/assemble.go:317-328 | the hashed bytes determine the NUL-free kind and the whole value list |
| `OpaqueIdentity.KindMustBeNulFree` | pkgs/media-repair/internal/casebuilder/assemble.go:317-328 | without that condition they do not: every kind and value have a second reading |
| `OpaqueIdentity.CapabilityBytesInjective` | pkgs/media-repair/internal/casebuilder/assemble.go:172-253 | equal hash inputs mean the same action with the same fields, over joins, manual imports, Blu-ray and DVD remuxes |
| `OpaqueIdentity.ManualInjective` | pkgs/media-repair/internal/casebuilder/assemble.go:217-253 | the manual-import list determines every field, despite the optional revision and the languages of any number |
| `OpaqueIdentity.BlurayInjective` | pkgs/media-repair/internal/casebuilder/bluray.go:32-46 | the Blu-ray list determines playlist, duration, chapters and clips |
| `OpaqueIdentity.DvdInjective` | pkgs/media-repair/internal/casebuilder/dvd.go:49-66 | the DVD list determines navigation file, title numbers, duration, chapters and sources |
| `OpaqueIdentity.EncodeAppends` | pkgs/media-repair/internal/casebuilder/assemble.go:317-328 | the bytes are the domain and the kind, and each further value appends a NUL, its length, a NUL and itself |
| `OpaqueIdentity.ItoaReads` | pkgs/media-repair/internal/casebuilder/assemble.go:317-328 | a length is written in decimal without leading zeros |
| `OpaqueIdentity.DiscLayout` | pkgs/media-repair/internal/casebuilder/bluray.go:32-46 | which value stands where in the Blu-ray and DVD lists, every file included |
| `OpaqueIdentity.ManualLayout` | pkgs/media-repair/internal/casebuilder/assemble.go:217-253 | which value stands where in the manual-import list, with and without a revision |
| `OpaqueIdentity.ManualLanguagesAt` | pkgs/media-repair/internal/casebuilder/assemble.go:217-253 | where each language's id and name stand in it |
| `OpaqueIdentity.FeedDigest` | pkgs/media-repair/internal/casebuilder/assemble.go:317-328 | feeding the digest piece by piece feeds exactly the encoding |
| `OpaqueIdentity.ManualImportId` | pkgs/media-repair/internal/casebuilder/assemble.go:217-253 | the appended list has the capability's id |
| `OpaqueIdentity.AppendFiles` | pkgs/media-repair/internal/casebuilder/bluray.go:39-46 | the source loop appends id and fingerprint of every file in order |
| `OpaqueIdentity.BindManualImports` | pkgs/media-repair/internal/casebuilder/assemble.go:189-215 | binding fails exactly when two matches bind the same import; otherwise every import is found under its own id and nothing else is offered |
| `Aliases.TableInjective` | pkgs/media-repair-planner/src/media_repair_planner/radarr_projection.py:50-69 | no two ids of a case share an alias, whatever ids repeat |
| `Aliases.CreateAliases` | pkgs/media-repair-planner/src/media_repair_planner/radarr_projection.py:50-69 | the numbering loops give an injective table, its exact inverse, and an alias for every case, file, capability and nested evidence id |
| `Aliases.RoundTrip` | pkgs/media-repair-planner/src/media_repair_planner/model_projection.py:29-44 | restoring undoes projecting on exactly the values with no omitted field and no text that is an alias without being an id |
| `Aliases.TransformAt` | pkgs/media-repair-planner/src/media_repair_planner/model_projection.py:29-44 | what the projection shows: the rewritten value at every path with no omitted key, and nothing anywhere else |
| `Aliases.FieldsInOrder` | pkgs/media-repair-planner/src/media_repair_planner/model_projection.py:34-39 | fields are rewritten one by one and keep their order |
| `Aliases.CaseAlias` | pkgs/media-repair-planner/src/media_repair_planner/radarr_projection.py:50-69 | the case id has the all-zero digest as its alias, unless it is also another id of the case |
| `Aliases.FileAlias` | pkgs/media-repair-planner/src/media_repair_planner/radarr_projection.py:50-69 | a file's alias is its kind and its place, the last one if it is listed twice, unless a later kind lists it too |
| `Aliases.CapabilityAlias` | pkgs/media-repair-planner/src/media_repair_planner/radarr_projection.py:50-69 | the same for a capability |
| `Aliases.EvidenceAlias` | pkgs/media-repair-planner/src/media_repair_planner/radarr_projection.py:50-69 | the same for a piece of evidence |
| `Aliases.CollectFieldsInOrder` | pkgs/media-repair-planner/src/media_repair_planner/radarr_projection.py:22-30 | ids are only appended, field after field |
| `Aliases.TextRoundTrip` | pkgs/media-repair-planner/src/media_repair_planner/model_projection.py:41-44 | a single text survives exactly when it is an aliased id or no alias |
| `Aliases.CollectExact` | pkgs/media-repair-planner/src/media_repair_planner/radarr_projection.py:22-30 | collecting finds exactly the evidence ids at any depth, none twice |
| `Aliases.EvidenceList.Gather` | pkgs/media-repair-planner/src/media_repair_planner/radarr_projection.py:22-30 | the recursive appending gives the ids in first-seen order |
| `Aliases.Invert` | pkgs/media-repair-planner/src/media_repair_planner/model_projection.py:55-60 | reading any table backwards leads every alias to an id that has it, and an injective table to its exact inverse |
| `DecisionRules.ValidateCommutes` | pkgs/media-repair-planner/src/media_repair_planner/decision_validation.py:50-199 | checking a restored decision against the case and projecting the violations equals checking it against the projected case, violation by violation |
| `DecisionRules.AcceptedAfterRestore` | pkgs/media-repair-planner/src/media_repair_planner/decision_validation.py:194-199 | for any injective table under which the case's ids survive the round trip, a decision without violations against the projected case has none against the original after restoring |
| `DecisionRules.AcceptedForBuiltTable` | pkgs/media-repair-planner/src/media_repair_planner/radarr_projection.py:44-69 | the same for the table the projection builds, with the one proviso that no manual-import or offered file id is an alias without having one |
| `DecisionRules.BuiltTableRestores` | pkgs/media-repair-planner/src/media_repair_planner/radarr_projection.py:50-69 | with the built table the case's ids survive the round trip exactly under that proviso |
| `DecisionRules.CorrectionForBuiltTable` | pkgs/media-repair-planner/src/media_repair_planner/model_projection.py:62-79 | with the built table the corrections sent back are the violations against the projected case, accepted or not |
| `DecisionRules.AcceptedIff` | pkgs/media-repair-planner/src/media_repair_planner/decision_validation.py:50-199 | a decision has no violations exactly when it names the case, refers only to known ids, and repairs nothing or selects, by the first id match, a capability of its kind that covers its files |
| `DecisionRules.ViolationsExact` | pkgs/media-repair-planner/src/media_repair_planner/decision_validation.py:50-199 | every violation is deserved and every deserved one is made, once, in the order case, evidence, capability, files, and names what is rejected and what would have been allowed |
| `DecisionRules.AcceptedMeets` | pkgs/media-repair-planner/src/media_repair_planner/decision_validation.py:81-183 | an accepted decision names ids of the projected case only |
| `DecisionRules.MistakenFileIsRejected` | pkgs/media-repair-planner/src/media_repair_planner/decision_validation.py:147-183 | in every case and with the built table, choosing a manual-import offer in projected terms is accepted, and after restoring it is accepted exactly when its file id is not mistaken for an alias |
| `DecisionRules.AliasLikeFile` | pkgs/media-repair-planner/src/media_repair_planner/radarr_projection.py:54-57 | a case and built table in which a file id is mistaken: the opaque-id grammar admits what an alias looks like |
| `DecisionRules.EvidenceCommutes` | pkgs/media-repair-planner/src/media_repair_planner/decision_validation.py:65-101 | the unknown-reference rule commutes with projection |
| `DecisionRules.CapabilityCommutes` | pkgs/media-repair-planner/src/media_repair_planner/decision_validation.py:104-144 | the capability rule commutes with projection |
| `DecisionRules.FilesCommute` | pkgs/media-repair-planner/src/media_repair_planner/decision_validation.py:147-183 | the file rules commute with projection |
| `SecretMerge.MergedValueAt` | apps/sops/src/sops_tools/model.py:92-101 | what stands at any key path after a merge: both values merged, whichever exists, or nothing where an existing non-object cuts a default off |
| `SecretMerge.MergeKeepsOverrides` | apps/sops/src/sops_tools/model.py:92-101 | a merge keeps every existing value |
| `SecretMerge.ExtendsKeepsValues` | apps/sops/src/sops_tools/model.py:70-89 | a fuller document has every path of the smaller one, with a fuller value |
| `SecretMerge.MergeTwice` | apps/sops/src/sops_tools/model.py:92-101 | merging the same defaults twice equals merging once |
| `SecretMerge.MergeBetween` | apps/sops/src/sops_tools/model.py:92-101 | every document between the old and the merged one merges to the same result |
| `SecretMerge.MergeInto` | apps/sops/src/sops_tools/model.py:92-101 | the copy-and-overwrite loop computes the merge in any key order |
| `SecretMerge.FindValue` | apps/sops/src/sops_tools/model.py:70-81 | the segment loop finds exactly the value at the path, or nothing |
| `SecretMerge.ScalarLeaves` | apps/sops/src/sops_tools/model.py:104-118 | collecting leaves fails exactly on an empty key; otherwise it lists exactly the scalars and their paths |
| `SecretMerge.EmptyKeyIff` | apps/sops/src/sops_tools/model.py:104-118 | a document is refused for an empty key exactly when one of its paths goes through one |
| `SecretUpdate.UpdateKeepsValues` | apps/sops/src/sops_tools/secrets.py:191-220 | no run, forced or not, loses or changes an existing value or adds anything the merge does not have |
| `SecretUpdate.TwoRunsSettle` | apps/sops/src/sops_tools/secrets.py:191-220 | unless an empty key stops it, at most two runs change the secret; then it is the merged document and every run reports no change |
| `SecretUpdate.InterruptedRunsSettle` | apps/sops/src/sops_tools/secrets.py:211-217 | however many runs were stopped between two writes, no value is lost or changed and the merged document asked for stays the same |
| `SecretUpdate.InterruptedThenTwoRuns` | apps/sops/src/sops_tools/secrets.py:191-220 | two complete runs after any such interruptions reach the document an uninterrupted start would have |
| `SecretUpdate.OneRunSuffices` | apps/sops/src/sops_tools/secrets.py:211-217 | a run that sets leaves finishes the job exactly when no empty list or object was missing |
| `SecretUpdate.OrderIrrelevant` | apps/sops/src/sops_tools/secrets.py:211-217 | the order in which missing leaves are set makes no difference |
| `SecretUpdate.LeavesFilled` | apps/sops/src/sops_tools/secrets.py:211-217 | setting the missing leaves leaves none missing and stays within the merged document |
| `SecretUpdate.OutcomeIff` | apps/sops/src/sops_tools/secrets.py:191-220 | a run changes nothing exactly when it is not forced and the secret is the merged document, fails exactly when it is not forced, differs and a path of the merged document goes through an empty key, and otherwise reencrypts exactly when forced or no leaf is missing |
| `SecretUpdate.RunSupplies` | apps/sops/src/sops_tools/secrets.py:198-203 | where the old secret leaves room, a completed run leaves exactly the scalars the templates supply: the host's own, or the common one where the host's template is open and has nothing |
| `SecretUpdate.Secret.Run` | apps/sops/src/sops_tools/secrets.py:191-220 | the in-place update keeps every existing value, unless it fails leaves exactly the scalars the templates supply where the old secret left room, the host's template before the common one, and has the specified outcome in each branch, the failing one included |
| `StorePaths.NormalizeStorePaths` | apps/fleet-tools/src/diff/output.rs:63-80 | the scanning loop ends and computes the character-by-character replacement |
| `StorePaths.Idempotent` | apps/fleet-tools/src/diff/output.rs:63-80 | normalising twice equals normalising once, on every text |
| `StorePaths.SameUpToPaths` | apps/fleet-tools/src/diff/output.rs:63-111 | two texts that differ only in their store paths, any number of them, normalise alike exactly when every path that differs is matched, that is, when the scan of the text right before it ends cleanly |
| `StorePaths.NormalizeText` | apps/fleet-tools/src/diff/output.rs:63-111 | normalising a text with any number of store paths replaces each by the token or keeps it, as the scan of the text right before it decides |
| `StorePaths.SameUpToPath` | apps/fleet-tools/src/diff/output.rs:63-111 | the same for one path |
| `StorePaths.ScanOver` | apps/fleet-tools/src/diff/output.rs:63-80 | a store path after any text is recognised exactly when the scan of that text ends cleanly |
| `StorePaths.CleanUnlessPrefixAtEnd` | apps/fleet-tools/src/diff/output.rs:63-80 | it does whenever the text does not end in the prefix without its last slash |
| `StorePaths.PathNameForm` | apps/fleet-tools/src/diff/output.rs:82-111 | what counts as a path: 32 lower-case letters or digits, a plain or escaped dash, and a non-empty name without stop characters |
| `StorePaths.SpelledPathIsReplaced` | apps/fleet-tools/src/diff/output.rs:63-111 | a text that starts with a store path, spelled out, has that path replaced by the token |
| `StorePaths.OtherNameIsKept` | apps/fleet-tools/src/diff/output.rs:63-111 | any other name after the prefix is left as it is |
| `StorePaths.EndStops` | apps/fleet-tools/src/diff/output.rs:82-111 | whether and where a path ends is settled before the first stop character |
| `StorePaths.FindSkips` | apps/fleet-tools/src/diff/output.rs:63-80 | text before the first prefix is copied |
| `LockGraph.InputsExact` | pkgs/flake-input-update-summary/src/flake_input_update_summary/app.py:73-91 | with slash-free names the dictionary is exactly the walks from the root that never revisit a node and end at a locked node, with that node's lock |
| `LockGraph.KeysAreWalks` | pkgs/flake-input-update-summary/src/flake_input_update_summary/app.py:73-91 | with any names its keys are exactly the joined names of such walks, and each value is the lock of one of them |
| `LockGraph.EntriesAreWalks` | pkgs/flake-input-update-summary/src/flake_input_update_summary/app.py:73-91 | what the visit records is exactly those walks |
| `LockGraph.SlashedNamesCollide` | pkgs/flake-input-update-summary/src/flake_input_update_summary/app.py:86-88 | with a slash in a name two walks can share a key, and the dictionary then keeps only the later lock |
| `LockGraph.Collector.Visit` | pkgs/flake-input-update-summary/src/flake_input_update_summary/app.py:76-88 | the recursive visit ends on every graph and assigns the specified entries in order |
| `LockGraph.LockedInputs` | pkgs/flake-input-update-summary/src/flake_input_update_summary/app.py:73-91 | the method's dictionary is the specified one |
| `LockGraph.UpdatedExact` | pkgs/flake-input-update-summary/src/flake_input_update_summary/app.py:176-183 | every reported name has walks in both locks that lead to different locked inputs, and with slash-free names every such name is reported |

## Left out

- HTTP, SSH, subprocess and Nix calls: each is one atomic step that succeeds or fails.
- JSON encoding, JSON Schema, canonical JSON and SHA-256: predicates on what is encodable and injective constructors.
- The decision policy, stream and track evidence of a staged artifact, and verification tolerances: parameters and booleans of the machines.
- File replacement, modes and size limits of stored records: a write replaces the record or leaves it.
- SOPS writes that fail after taking effect: a failed write leaves the old value. `SavedButRevokedIsStuck` says what planning would accept otherwise, which is nothing but the rotation of a first issue.
- More than one bot or state file: the bot and the place of saved credentials are the same in all runs, whatever they declare otherwise.
- A Nix child process that outlives its dead deployment: its calls are atomic steps of that deployment.
- The process lock around one provisioning run and the lock that serialises collections: runs do not overlap, and a collection may happen at any time.
- Host selection, dry runs, activation and its report: they follow the staged source and do not touch locks or roots.
- The order in which lock takes the hosts: any order of the distinct requested hosts is allowed.
- SecretUpdate.Secret.Run: requires that the paths of missing leaves hold keys only, because what setting a list index does to an encrypted file is not part of these sources; lists already in the secret, empty lists and lists without scalars are covered.
- SecretUpdate.TwoRunsSettle: the same requirement on the missing leaves, for the same reason.
- SecretUpdate.UpdateKeepsValues: the same requirement on the missing leaves, for the same reason.
- SecretUpdate.OneRunSuffices: the same requirement on the missing leaves, for the same reason.
- SecretUpdate.OrderIrrelevant: the same requirement on the missing leaves, for the same reason.
- SecretUpdate.LeavesFilled: the same requirement on the missing leaves, for the same reason.
- LockDirectory.Directory.Lock: describes one call that no other process interrupts; what holds when others act meanwhile is stated of every interleaving by `LockReturnsExactly`, `LeavesHoldingNothing` and `SweepSkipsOnlyBusyHosts`.
- Python's equality of `1`, `1.0` and `True`: scalars are equal when they are the same text.
- DecisionRules.ValidateCommutes: sorted tuples are compared by what they hold, repeats included, and not by order, which differs because ids and aliases sort differently; the decision schema is not modelled, and free-text fields of a decision are not part of it.
- DecisionRules.AcceptedForBuiltTable: the projected case keeps the actions of its offers, while the program rewrites every text; the two differ only if an id is spelled like an action. Cases and decisions here are their ids, and that the encoded JSON holds those ids is not modelled.
- DecisionRules.CorrectionForBuiltTable: compares sorted tuples by what they hold and not by order, as above.
- SecretUpdate.InterruptedRunsSettle: the same requirement on the leaves set, that their paths hold keys only.
- SecretUpdate.InterruptedThenTwoRuns: the same requirement on the leaves set.
- Storing cases and planning results: the store is given its planned cases.
- DecisionRules.EvidenceCommutes: compares the sorted references as sets, since aliases sort differently from ids.
- DecisionRules.CapabilityCommutes: compares the sorted capability ids by what they hold, repeats included, and not by order.
- LockGraph.UpdatedExact: with a slash in a name only the first half holds, since a lock can be lost; it states which inputs are reported, not that they are sorted by name.
- Rendering of update summaries, comparison links, diff classification and package reports: formatting.
- Lidarr cases and decisions: the same alias table over other fields.
- The planner's model calls, prompts, server and evaluation tools: wiring around an opaque model.
