# tinymcp, modelled and proved

A Dafny model of the parts of tinymcp that carry state or parse by hand, with proofs of
what they promise. `dafny verify dfyconfig.toml` checks the whole project.

1. **The open/close lifecycle** (`Lifecycle.dfy`, `LifecycleRefinement.dfy`,
   `LifecycleExact.dfy`, `LifecycleDriver.dfy`). The six-state machine with receipts and its
   one-retry flag, as a class over transition functions; a module that really serves something,
   beside it; the driver loop around it.
2. **The client table** (`ClientTable.dfy`, `TableSteps.dfy`, `TableInvariants.dfy`,
   `TableTheorems.dfy`, `TableAlone.dfy`, `TableAdmission.dfy`, `TableRefusal.dfy`,
   `TableClients.dfy`, `TableLaws.dfy`). The operations as methods of a class, and what they do
   to one another; the same operations lock by lock, for any number of threads; results over
   every interleaving; and the proof that one call alone does exactly what the class says.
3. **The audit-stream import** (`AuditImport.dfy`, `AuditStorage.dfy`, `AuditRun.dfy`,
   `AuditRerun.dfy`, `AuditProtocol.dfy`, `AuditRecovery.dfy`, `AuditLone.dfy`,
   `AuditDriven.dfy`, `AuditRivals.dfy`, `AuditFamily.dfy`). The import, and the migration of
   the whole family, as imperative code over a storage object whose calls may fail, lose their
   answer, come back short or be raced; the same import as a transition system of any number
   of openers with crashes; the proof that the code is one of these openers, call by call and
   under every fault; and the proof that one opener alone comes to what the import in one piece
   does.
4. **The secret scrubber** (`ScrubPass.dfy`, `Scrub.dfy`, `ScrubLimits.dfy`,
   `ScrubSetup.dfy`, `ScrubForms.dfy`, `ScrubWords.dfy`, `ScrubJson.dfy`, `ScrubNames.dfy`,
   `ScrubNamesExact.dfy`, `ScrubExamples.dfy`). The passes, the secrets and their order, JSON
   values, exactly what is replaced, and exactly which secrets are kept out.
5. **Links and web URLs** (`LeftmostScan.dfy`, `UrlSpans.dfy`, `Links.dfy`,
   `ExtractLinks.dfy`, `JsonPaths.dfy`, `StructuredLinks.dfy`, `Hosts.dfy`,
   `DotSegments.dfy`, `WebUrl.dfy`). The scanner, the trimming
   and the extraction with its early return, against what they find; the URL splitter against
   the URLs it accepts.
6. **Tool names** (`Slugs.dfy`, `ToolNames.dfy`). Slugs against the words they are made of, and
   the bounds of every generated name.

`Text.dfy`, `Segments.dfy`, `Decimal.dfy`, `JsonValues.dfy` and `Prelude.dfy` hold what these
share. Text is a sequence of Unicode characters; white space, control and alphanumeric
characters are parameters, ASCII rules are concrete, and byte lengths are those of UTF-8
where they matter. Digests are arbitrary, percent-encoding is a parameter, and references
are ids.

## Where the code and its promises differ

The model follows the code. Each point is a lemma below, with the exact condition.

- **First checkpoints are not made in one piece** (`migrate.rs:99-113`; the save has no
  precondition, `crates/tinymcp/src/storage/local/schema.rs:579-588`). Two openers can both find
  none; if the second copies before the first measures the target, entries are copied twice
  (`RacingFirstCheckpointsRepeat`; `MismeasuredStartRepeats` says exactly when). The safety
  result covers every run in which a first checkpoint measures the target before anything is
  copied or once the source is gone, and no weaker condition will do (`OrderlyExactly`).
- **A short page and a crash can strand an import** (`migrate.rs:119-160`). The comparison
  with the target is batch by batch, so a rerun completes exactly when what was copied past the
  checkpoint ends on a batch boundary (`RerunRecoversExactly`, `ShortPageCanStrand`).
- **An opener can fail because another has just finished the same import**
  (`migrate.rs:119-214`). The copy is complete then and nothing is lost, but a rival that
  finishes before the check of the target's end, while a batch that is not the last is being
  copied, or, on a storage that reports it, before the deletion, is taken for a change of the
  streams (`RivalsExactly`, with `RivalAtTheAppendOrTheCheck` as the example), although
  competing openers are meant to be accepted (`migrate.rs:167-173`,
  `crates/tinymcp/src/storage/migrate_tests.rs:895`). The next start finds nothing left to do
  (`RerunWithoutSourceChangesNothing`).
- **A missing target is empty only to the length** (`migrate.rs:145-150`, `216-222`). Reading
  a window of it passes NotFound on, so on a driver that refuses to read a missing stream an
  import with something to copy into a missing target never completes
  (the `strict` parameter of `RerunCompletesOnABatchBoundary`), although
  `crates/tinymcp/src/storage/migrate_tests.rs:1172` names that target as treated as empty.
- **`finish_cleanup` can answer false after evicting its client** (`table.rs:234-280`), when
  the host raises a fence between its two checks; the documentation promises that everything is
  left for a retry (`RefusedCleanupMayEvict`; `RefusalExactly` says when).
- **A client can be admitted while the host's fence is up** (`table.rs:103-122`). Admission
  looks for a reservation and lets the reservations lock go before it decides, so a fence
  raised in between does not stop it, although a reserved directory is said to be refused
  (`table.rs:93-101`; `AdmittedUnderAFence`; `AdmittedUnderFenceExactly` says when).
- **The lifecycle agrees with the module except after three kinds of loss**: of the
  acceptance of an open that takes effect, of the acceptance of a close that still runs, and of
  the record of an awaited replacement that took effect (`config/types.rs:169-178` allows it to
  be reported Unknown). Each can lead to a state that names the wrong object, and nothing else
  can (`HarmlessExactly`, with three example runs).
- **A secret that overlaps `[redacted]` can survive scrubbing** (`scrub.rs:187-236`):
  absence holds exactly for the others (`GoneExactlyWhenClean`; `ReplacementSpellsASecret` is an
  example). **The number added to a colliding object name can spell a secret**
  (`scrub.rs:247-253`; `NumberSpellsASecret` is an example), for exactly the clean secrets that
  can overlap a numbered suffix (`NeverNamedExactly`).

## Model

| member | source | states |
|---|---|---|
| `LifecycleRefinement.OpenIsServedAndClosedIsNot` | crates/tinymcp-bus/src/client_lifecycle/machine.rs:119-256 | In every run of open and close callers with any configurations, any replies and any polls, against a module that really serves something, in which the environment does nothing harmful: state Open names exactly the configuration and path served, and Closed means nothing is served. Harmful are three things: losing the acceptance of an open that may take effect or did, losing the acceptance of a close that still runs, and retiring the record of an awaited replacement that took effect. |
| `LifecycleExact.HarmlessExactly` | crates/tinymcp-bus/src/client_lifecycle/machine.rs:119-256 | That condition is the weakest: in every state such a run leads to, an action is one of the three exactly when some continuation ends in a state that names the wrong object, even though nothing harmful follows. |
| `LifecycleRefinement.SettledObjectIsServedUntilReplaced` | crates/tinymcp-bus/src/client_lifecycle/machine.rs:119-256 | In the same runs, through every intermediate state: the module serves the last settled object, or already the outcome of the one transition awaited, and no other transition is running. |
| `LifecycleRefinement.RunKeepsAgreement` | crates/tinymcp-bus/src/client_lifecycle/machine.rs:119-256 | The agreement between machine, call in flight and module holds after every run from any state that has it. |
| `LifecycleRefinement.LostAcceptanceBreaksAgreement` | crates/tinymcp-bus/src/client_lifecycle/machine.rs:161-175 | An example of the first: a run in which the acceptance of a replacement is lost ends in Open naming an object that is not served. |
| `LifecycleRefinement.UnknownAfterEffectBreaksAgreement` | crates/tinymcp-bus/src/client_lifecycle/machine.rs:178-209 | An example of the third: so does a run in which a replacement took effect and its record was retired before being observed. |
| `LifecycleRefinement.LostCloseAcceptanceBreaksAgreement` | crates/tinymcp-bus/src/client_lifecycle/machine.rs:213-256 | An example of the second: so does losing the acceptance of a close, which then finishes after a later open has settled. |
| `LifecycleMachine.AskingAgainRepeatsTheStep` | crates/tinymcp-bus/src/client_lifecycle/machine.rs:119-157 | Asking for a step again before any reply names the same call and leaves the same state. |
| `LifecycleMachine.ConfiguredLifecycle.OpenStep` | crates/tinymcp-bus/src/client_lifecycle/machine.rs:119-141 | The in-place method gives the step and the whole new state of the transition function. |
| `LifecycleMachine.ConfiguredLifecycle.CloseStep` | crates/tinymcp-bus/src/client_lifecycle/machine.rs:145-157 | As above, for a close. |
| `LifecycleMachine.ConfiguredLifecycle.OpenReplied` | crates/tinymcp-bus/src/client_lifecycle/machine.rs:161-175 | As above, for the reply to an open, lost replies included. |
| `LifecycleMachine.ConfiguredLifecycle.OpenPolled` | crates/tinymcp-bus/src/client_lifecycle/machine.rs:178-209 | The in-place method gives the answer and the whole new state of the transition function, for every status polled while opening. |
| `LifecycleMachine.ConfiguredLifecycle.CloseReplied` | crates/tinymcp-bus/src/client_lifecycle/machine.rs:213-230 | As above, for the reply to a close. |
| `LifecycleMachine.ConfiguredLifecycle.ClosePolled` | crates/tinymcp-bus/src/client_lifecycle/machine.rs:233-256 | The same, for every status polled while closing. |
| `LifecycleDriver.DriveOpen` | crates/tinymcp-bus/src/client_lifecycle/machine.rs:119-209 | From any machine state, against a module that accepts calls and answers each receipt with finitely many Pendings and then Complete, the loop around `open_step(r)`, which stops at a fault, meets none and ends Ready with configuration r. |
| `LifecycleDriver.DriveClose` | crates/tinymcp-bus/src/client_lifecycle/machine.rs:145-256 | From any machine state, against the same module, the loop around `close_step` meets no fault and ends Closed. |
| `LifecycleDriver.OpenAnswersFit` | crates/tinymcp-bus/src/client_lifecycle/machine.rs:178-209 | What the answer to a poll tells the driver, over all machines and statuses: Done exactly when this poll settles the transition awaited, and then the object asked for is ready; a fault exactly when it is still awaited and not pending, and then it is polled again, with the undefined status told apart; else a retry makes the same call again. |
| `LifecycleDriver.CloseAnswersFit` | crates/tinymcp-bus/src/client_lifecycle/machine.rs:233-256 | The same for a close, after whose Done all is closed. |
| `LifecycleDriver.RetriesAlternateWithFaults` | crates/tinymcp-bus/src/client_lifecycle/machine.rs:161-256 | Over every sequence of calls: the retry flag is clear in Open and Closed; the terminal statuses polled since the last settlement are answered Continue, Fault, Continue and so on; the Continues exceed the Faults by one at most, exactly when a retry is owed. |
| `LifecycleDriver.AlternationCounts` | crates/tinymcp-bus/src/client_lifecycle/machine.rs:197-252 | How many of n alternating answers are retries and how many are faults. |
| `TableOperations.ClientTable.AdmitClient` | crates/tinymcp-bus/src/client_lifecycle/table.rs:103-122 | Admission answers and changes the table as specified: refused when the directory was removed, a reservation is stored, or its client is retiring; otherwise the existing client is answered; otherwise the constructor runs, and its client is stored and answered, or its failure is reported and nothing changes. |
| `TableOperations.ClientTable.Retire` | crates/tinymcp-bus/src/client_lifecycle/table.rs:139-144 | Marks the stored client as retiring and reports it; it stays in the map, and nothing else changes. |
| `TableOperations.ClientTable.Evict` | crates/tinymcp-bus/src/client_lifecycle/table.rs:190-200 | Removes the entry only when it is still that client. |
| `TableOperations.ClientTable.ReservationFor` | crates/tinymcp-bus/src/client_lifecycle/table.rs:147-154 | Answers the stored reservation, or stores a new one. |
| `TableOperations.ClientTable.ReserveHostCompletion` | crates/tinymcp-bus/src/client_lifecycle/table.rs:158-165 | The same, and raises the fence on it. |
| `TableOperations.ClientTable.ReservationWithAction` | crates/tinymcp-bus/src/client_lifecycle/table.rs:203-221 | The same, and sets the action unless one is set. |
| `TableOperations.ClientTable.CompleteHostCleanup` | crates/tinymcp-bus/src/client_lifecycle/table.rs:170-186 | For the stored token, fenced or not: lowers the fence, removes the reservation when it carries no action, and answers true. For any other token: changes nothing and answers false. |
| `TableOperations.ClientTable.FinishCleanup` | crates/tinymcp-bus/src/client_lifecycle/table.rs:240-280 | Undisturbed: runs the action, drops client and reservation and answers true; or answers false and changes nothing. |
| `TableOperations.ClientTable.RetryOrphaned` | crates/tinymcp-bus/src/client_lifecycle/table.rs:283-293 | Releases exactly the reservations that are not fenced, whose directory has no cached client, and whose action, if they carry one, succeeds, in whatever order they are visited; nothing else changes. |
| `TableLaws.AdmissionHoldsExactly` | crates/tinymcp-bus/src/client_lifecycle/table.rs:93-122 | A directory is unavailable exactly while it is removed, reserved or in front of a retiring client, and the table is unchanged then; the client handed out is the cached one from then on, and is handed out again by every later admission. |
| `TableLaws.HostCleanupIsFenced` | crates/tinymcp-bus/src/client_lifecycle/table.rs:156-186 | Between reserving a host cleanup and confirming it nobody is admitted and no cleanup gets through; confirming takes the reservation back, or leaves the one that carries an action without its fence; the token is of no use after that; no other directory and no client changes. |
| `TableLaws.ActionIsRunOnce` | crates/tinymcp-bus/src/client_lifecycle/table.rs:203-280 | Of two actions the first stays; a cleanup whose action fails, or that names a client that is not the cached one, leaves everything; any other takes out the reservation and the client it names, and nothing of any other directory, and cannot be repeated. |
| `TableLaws.RetryFinishesOrphans` | crates/tinymcp-bus/src/client_lifecycle/table.rs:283-293 | An orphan retry releases a directory exactly when nobody is cached there and a cleanup without a client would succeed; a second one finds nothing more to do. |
| `TableTheorems.AcceptedActionIsNeverLost` | crates/tinymcp-bus/src/client_lifecycle/table.rs:203-280 | In every interleaving, a reservation that carries an action is the stored one of its directory until that very action has been run to a true answer by a finish call. |
| `TableTheorems.AttachAnswersWithACarrier` | crates/tinymcp-bus/src/client_lifecycle/table.rs:203-221 | `reservation_with_action` answers with a stored reservation that carries an action: the one it brought, unless one was already set. |
| `TableTheorems.ActionIsNeverReplaced` | crates/tinymcp-bus/src/client_lifecycle/table.rs:203-221 | No step of any call replaces or clears an action once set. |
| `TableTheorems.RetriesArePaidFor` | crates/tinymcp-bus/src/client_lifecycle/table.rs:203-221 | Each retry of its loop is paid for by a removal that paid for no earlier retry. |
| `TableTheorems.FenceFallsOnlyToItsHost` | crates/tinymcp-bus/src/client_lifecycle/table.rs:170-186 | A fence comes down only in the step that confirms that very reservation. |
| `TableTheorems.FenceHoldsUntilConfirmed` | crates/tinymcp-bus/src/client_lifecycle/table.rs:103-122 | From the raising of a fence until its confirmation, whatever cleanups and retries run, its reservation stays the stored one, and an admission is past its look only if it was when the fence came up. |
| `TableAdmission.AdmittedUnderFenceExactly` | crates/tinymcp-bus/src/client_lifecycle/table.rs:103-122 | In every state with a fence up, a given call can go on to be answered with a client for that directory, while the fence stays, exactly when it is an admission past its look that does not stand before a retiring client. |
| `TableAdmission.AdmittedUnderAFence` | crates/tinymcp-bus/src/client_lifecycle/table.rs:103-122 | This happens: a run from the start that ends with a client admitted to a directory whose cleanup the host has fenced. |
| `TableClients.CachedUntilNamed` | crates/tinymcp-bus/src/client_lifecycle/table.rs:188-280 | In every interleaving, a cached client stays the cached one until a call that names it evicts it or another is inserted in its place: a stale cleanup cannot take out its successor. |
| `TableClients.RetiredIsNotHandedOut` | crates/tinymcp-bus/src/client_lifecycle/table.rs:103-144 | In every interleaving, a client once retired is handed out by no admission, unless the constructor itself comes up with it again. |
| `TableTheorems.AdmissionComesFromThere` | crates/tinymcp-bus/src/client_lifecycle/table.rs:103-122 | A client is admitted only from the point past that look. |
| `TableTheorems.RemovedStaysRemoved` | crates/tinymcp-bus/src/client_lifecycle/table.rs:147-186 | A removed reservation never re-enters the map, in any run, and its action slot never changes again. |
| `TableTheorems.StaleTokenChangesNothing` | crates/tinymcp-bus/src/client_lifecycle/table.rs:170-186 | Every step of a call with a removed token leaves both maps and all reservations as they were, and the call answers false. |
| `TableTheorems.LocksAreOrdered` | crates/tinymcp-bus/src/client_lifecycle/table.rs:103-306 | Every call takes a reservation lock, then clients, then reservations, and holds at most one reservation lock. |
| `TableTheorems.NoDeadlock` | crates/tinymcp-bus/src/client_lifecycle/table.rs:103-306 | In every reachable state with a call under way, some call can take a step. |
| `TableInvariants.StepKeepsInv` | crates/tinymcp-bus/src/client_lifecycle/table.rs:103-306 | The invariant behind these results (locks, records and what every thread may rely on) is kept by every step of every call. |
| `TableAlone.FinishAlone` | crates/tinymcp-bus/src/client_lifecycle/table.rs:240-280 | Every undisturbed sequence of lock steps of `finish_cleanup` ends where its one-step specification does, for some answer of the action; and for either answer some sequence does. |
| `TableAlone.HostAlone` | crates/tinymcp-bus/src/client_lifecycle/table.rs:170-186 | The same for `complete_host_cleanup`. |
| `TableAlone.AttachAlone` | crates/tinymcp-bus/src/client_lifecycle/table.rs:203-221 | The same for `reservation_with_action`, whose first attempt suffices. |
| `TableAlone.AdmitAlone` | crates/tinymcp-bus/src/client_lifecycle/table.rs:103-122 | The same for `admit`, whatever the removal test and the constructor answer. |
| `TableAlone.ObtainAlone` | crates/tinymcp-bus/src/client_lifecycle/table.rs:147-154 | The same for obtaining a reservation. |
| `TableAlone.FenceAlone` | crates/tinymcp-bus/src/client_lifecycle/table.rs:158-165 | The same for `reserve_host_completion`. |
| `TableAlone.RetryAlone` | crates/tinymcp-bus/src/client_lifecycle/table.rs:283-293 | The same for `retry_orphaned`, in whatever order it visits the reservations and whichever actions succeed: it leaves behind what the method of the class does. |
| `TableAlone.EndingIsARun` | crates/tinymcp-bus/src/client_lifecycle/table.rs:103-306 | In every reachable state of the whole table in which no other call holds a lock, such a sequence is a run, and takes the table and the call to that end. |
| `TableAlone.AloneIsARun` | crates/tinymcp-bus/src/client_lifecycle/table.rs:103-306 | In those states, what one call can do by itself is exactly what it can do alone, step by step. |
| `TableRefusal.LastCheckFailsOnlyToAFence` | crates/tinymcp-bus/src/client_lifecycle/table.rs:262-280 | The last currency check of `finish_cleanup` fails exactly when a fence came up since the first one. |
| `TableRefusal.RefusalExactly` | crates/tinymcp-bus/src/client_lifecycle/table.rs:234-280 | A cleanup that names a client, in any interleaving: it answers false with its client evicted exactly when it gets to its last check and finds its reservation fenced there; any other false answer has changed nothing; and it answers true exactly when it gets there unfenced. |
| `TableRefusal.RefusedCleanupMayEvict` | crates/tinymcp-bus/src/client_lifecycle/table.rs:234-280 | A run in which `finish_cleanup` answers false after evicting its client, which its documentation excludes. |
| `AuditNames.TargetsAreApart` | crates/tinymcp/src/storage/migration_legacy.rs:224-232 | Distinct legacy streams never share a target, and no target is itself a legacy stream. |
| `AuditRun.ImportSource` | crates/tinymcp/src/storage/migrate.rs:91-196 | One import of a source is, call by call and under every script of failing, losing, short or raced storage calls, one opener of the transition system: same storage, same verdict, same error. So the copy stays sound and success means the source is gone with all of it in the target; undisturbed it is the function `Import`, result and storage alike; and a rerun that would complete, raced by any number of openers that finish the same import, ends with the whole source in the target, once, and succeeds exactly when `IsSpared` says. |
| `AuditRivals.RivalsExactly` | crates/tinymcp/src/storage/migrate.rs:119-214 | From every point of an import that would complete undisturbed, whatever rivals finish before whichever calls: it succeeds if and only if the first of them to find anything to do does not come before a fatal call, and the source is wholly in the target and gone either way. Fatal are: the check of the target's end; the calls on a batch already read that is not the last; and the deletion, on a storage that reports a missing stream there. |
| `AuditRivals.RerunUnderRivals` | crates/tinymcp/src/storage/migrate.rs:91-214 | The same for a rerun from whatever a crash left behind. |
| `AuditRivals.RivalAtTheAppendOrTheCheck` | crates/tinymcp/src/storage/migrate.rs:151-187 | Both happen: with one entry to import, a rival before the append, the eighth call, is harmless; before the check of the target's end, the seventh, it makes the import fail with everything done. |
| `AuditDriven.RanKeepsCopy` | crates/tinymcp/src/storage/migrate.rs:91-214 | Under every script, from every point of a job: the copy stays sound, and success means the source is gone. |
| `AuditDriven.ErrorsAreTheCalls` | crates/tinymcp/src/storage/migrate.rs:91-259 | Under every script: an opener gives up with the error of its last call if that call failed, and otherwise with a conflict or, on storages that report missing streams, with NotFound; one that succeeds met no failure but conflicts. |
| `AuditRun.SourceBatch` | crates/tinymcp/src/storage/migrate.rs:224-259 | What reading a batch answers, under every script: a window of the source, or that everything was copied and the source is gone; and where the opener goes on. With no faults, exactly which of the four answers is given, an empty page that is not final and a missing source included. |
| `AuditRun.DeleteMigratedSource` | crates/tinymcp/src/storage/migrate.rs:198-214 | With no faults: deletes a source of the captured length, accepts an absent or emptied one, and refuses any other with a conflict, changing nothing. Under any script: success means the source is gone, and a loss or a rival keeps the copy sound. |
| `AuditImport.LoopMeetsItsOutcome` | crates/tinymcp/src/storage/migrate.rs:119-191 | The copying loop by its outcome: complete on a batch boundary, a conflict otherwise, and never a changed source. |
| `AuditStorage.RivalKeepsCopy` | crates/tinymcp/src/storage/migrate.rs:192-214 | A competing opener that finishes the same import at any call keeps the copy sound. |
| `AuditProtocol.NoEntryIsLostOrRepeated` | crates/tinymcp/src/storage/migrate.rs:70-214 | In every interleaving of any number of openers, failures, crashes, lost answers and short reads, in which a first checkpoint measures the target before anything is copied or once the source is gone: the target is what it held at the start followed by a prefix of the source, each entry once and in order; the source is intact or wholly copied; the step is marked done only when every source is gone. |
| `AuditProtocol.StepKeepsInv` | crates/tinymcp/src/storage/migrate.rs:70-259 | The invariant behind it (every copy, and what every opener knows) is kept by every storage call of every opener. |
| `AuditLone.OrderlyExactly` | crates/tinymcp/src/storage/migrate.rs:99-113 | That condition is the weakest: at every step that measures a target for a first checkpoint, the condition holds exactly when nothing that may follow, itself so conditioned, leaves more than a prefix of the source in the target. |
| `AuditRerun.RerunCompletesOnABatchBoundary` | crates/tinymcp/src/storage/migrate.rs:91-196 | With the source still there, one undisturbed rerun from any state a crash leaves behind completes exactly when what was copied past the checkpoint ends on a batch boundary and the target can be read; otherwise it changes neither stream. |
| `AuditRerun.RerunWithoutSourceChangesNothing` | crates/tinymcp/src/storage/migrate.rs:91-196 | Once the source is gone a run succeeds and changes nothing. |
| `AuditRerun.SecondRerunChangesNothing` | crates/tinymcp/src/storage/migrate.rs:91-196 | After a completed rerun, another finds nothing to do. |
| `AuditRerun.MismeasuredStartRepeats` | crates/tinymcp/src/storage/migrate.rs:99-113 | A first checkpoint that measured the target after k entries had been copied makes the import repeat exactly those; the result is right if and only if k is zero. |
| `AuditRecovery.OneRerunRecovers` | crates/tinymcp/src/storage/migrate.rs:70-196 | In particular, after any run of openers, failures and crashes in which pages come back full, one undisturbed rerun completes exactly when the target can be read, and then ends with the old contents followed by the source, the source removed, and a further run changes nothing. |
| `AuditRecovery.RerunRecoversExactly` | crates/tinymcp/src/storage/migrate.rs:70-196 | After any run, short pages included, an undisturbed rerun of a source still there does so if and only if what was copied past the checkpoint ends on a batch boundary and the target can be read; otherwise it changes neither stream. |
| `AuditLone.LoneOpenerImports` | crates/tinymcp/src/storage/migrate.rs:91-196 | The rerun in one piece is what an opener of the interleaved system does, on storages that read a missing stream as empty and on those that refuse to: every sequence of calls that works, with full pages, and that no other opener disturbs, from the measuring of a source or any later point, appends reported as conflicts included, ends where the import does, streams, checkpoint and verdict alike. |
| `AuditLone.LoneOpenerEnds` | crates/tinymcp/src/storage/migrate.rs:91-196 | And such a sequence exists from every such point, on either storage. |
| `AuditLone.LoneOpenerRecovers` | crates/tinymcp/src/storage/migrate.rs:70-196 | So after any run, short pages included, an opener that then has the streams to itself ends with the whole source in the target, once, and the source gone, whatever its calls are, if what was copied past the checkpoint ends on a batch boundary and the target can be read; otherwise it gives up and leaves every stream as it was. |
| `AuditLone.GoneSourceExactly` | crates/tinymcp/src/storage/migrate.rs:119-136 | An opener that is about to read and whose source another has finished meanwhile: whatever its calls are they change nothing, and it takes the source for imported exactly when the saved checkpoint reaches the length it measured. |
| `AuditFamily.MigrateAuditStreams` | crates/tinymcp/src/storage/migrate.rs:70-89 | The whole migration over any listing order. A step that is done is not tried again. Under every script all copies stay sound, and once the step is marked done the whole family is in its targets and gone. Undisturbed, that is so if and only if every source that is left can be completed by itself; if one cannot, the step is not marked, and each source is either gone and wholly copied or its target is as it was. |
| `AuditFamily.LoneOpenerMigrates` | crates/tinymcp/src/storage/migrate.rs:70-89 | An opener of the transition system that finds every source in a state that can be completed has a run of its own, in whatever order it picks them, that imports them all and marks the step done. |
| `AuditFamily.FirstOpenerMigrates` | crates/tinymcp/src/storage/migrate.rs:70-89 | From the start, too, if the storage can read the targets. |
| `AuditRecovery.ShortPageCanStrand` | crates/tinymcp/src/storage/migrate.rs:119-160 | The full pages are needed: a run with one short page and a crash before the checkpoint save from which no undisturbed import can go on. |
| `AuditRecovery.RacingFirstCheckpointsRepeat` | crates/tinymcp/src/storage/migrate.rs:99-113 | The one-piece first checkpoint is needed: a run of two openers that copies an entry twice. |
| `Text.MatchesExactly` | crates/tinymcp/src/agent_tools/scrub.rs:216-230 | The occurrences a pass works on are the leftmost, non-overlapping ones, and no other list is. |
| `ScrubPass.SplicingBackRestores` | crates/tinymcp/src/agent_tools/scrub.rs:205-236 | Putting the secret back for each replacement restores the text: a pass changes nothing else. |
| `ScrubPass.WholeKeepsExactlyAlone` | crates/tinymcp/src/agent_tools/scrub.rs:216-228 | The whole-word pass replaces exactly the matches with no word character on either side. |
| `ScrubPass.SpliceSpellsNothing` | crates/tinymcp/src/agent_tools/scrub.rs:205-236 | A pass over any secret never spells a clean secret that was not in the text. |
| `ScrubPass.ReplacingRemoves` | crates/tinymcp/src/agent_tools/scrub.rs:231-233 | Replacing a clean secret everywhere leaves it nowhere. |
| `Scrub.WholeWords` | crates/tinymcp/src/agent_tools/scrub.rs:210-230 | The loop with its moving cursor makes the whole-word pass. |
| `Scrub.ScrubText` | crates/tinymcp/src/agent_tools/scrub.rs:205-236 | The loop over the secrets, one pass for each, comes to the specification that the following rows speak of. |
| `ScrubWords.OneSecretExactly` | crates/tinymcp/src/agent_tools/scrub.rs:205-236 | Of one secret, taken from the left without overlaps, exactly these occurrences are replaced: all of them if it has eight bytes or more, or is strict and the text is no name; else those with no word character on either side. |
| `ScrubWords.SparedTextIsKept` | crates/tinymcp/src/agent_tools/scrub.rs:205-236 | A text in which each secret is absent, or is short, not replaced inside words, and stands inside words only, is returned as it is. |
| `Scrub.CleanSecretIsGone` | crates/tinymcp/src/agent_tools/scrub.rs:187-236 | For every text and every list of other secrets: a secret of eight bytes or more, or strict, that cannot overlap the replacement occurs nowhere in the result. |
| `ScrubLimits.GoneExactlyWhenClean` | crates/tinymcp/src/agent_tools/scrub.rs:187-236 | Exactly those secrets: one that can overlap the replacement is left in some text by some scrubber. |
| `Scrub.PlainSecretsAreClean` | crates/tinymcp/src/agent_tools/scrub.rs:187-236 | A secret without square brackets that is no part of "redacted" cannot overlap it. |
| `Scrub.TextWithoutSecretsIsKept` | crates/tinymcp/src/agent_tools/scrub.rs:187-236 | A text that holds no secret is returned as it is. |
| `Scrub.ScrubbingTwiceIsOnce` | crates/tinymcp/src/agent_tools/scrub.rs:187-236 | Scrubbing is idempotent when every secret is clean and replaced anywhere. |
| `Scrub.ContainerIsReplacedWhole` | crates/tinymcp/src/agent_tools/scrub.rs:372-376 | What longest-first is for: a secret is replaced whole, and nothing else is touched, when every other secret in the text is a part of it. |
| `SecretOrder.SortingKeeps` | crates/tinymcp/src/agent_tools/scrub.rs:373-376 | Sorting and deduplicating gives the same secrets, each once, longest first and then alphabetical. |
| `SecretOrder.OrderIsUnique` | crates/tinymcp/src/agent_tools/scrub.rs:373-376 | There is one such list. |
| `ScrubSetup.WithSecrets` | crates/tinymcp/src/agent_tools/scrub.rs:163-183 | The loops over the supplied secrets, with their early exits, make the scrubber that the following rows speak of. |
| `ScrubForms.AddedExactly` | crates/tinymcp/src/agent_tools/scrub.rs:156-183 | The scrubber then looks for what it looked for before and for each supplied secret that is not blank, without the white space around it and as it stands in a URL, the same for the token of a bearer credential, and nothing else; all of these count as strict. |
| `ScrubForms.SuppliedSecretIsGone` | crates/tinymcp/src/agent_tools/scrub.rs:156-183 | Every clean form of a supplied secret, however short, is gone from every scrubbed text, and so is every clean secret the scrubber replaced anywhere before. |
| `ScrubForms.BearerTokenExactly` | crates/tinymcp/src/agent_tools/scrub.rs:363-370 | The bearer credentials, exactly: between white space, the word `bearer` in any letter case, a space, and a token that is not blank; what is found is the token without the white space around it. |
| `Letters.TrimExactly` | crates/tinymcp/src/agent_tools/scrub.rs:365-370 | Trimming leaves exactly what stands between the white space at either end. |
| `ScrubJson.FindUniqueKey` | crates/tinymcp/src/agent_tools/scrub.rs:248-253 | The suffix search terminates, within as many tries as there are names plus one, with the base name or the first free numbered one. |
| `ScrubJson.TriesAreBounded` | crates/tinymcp/src/agent_tools/scrub.rs:248-253 | Numbers tried in vain are fewer than the names taken: distinct numbers print differently. |
| `ScrubJson.ScrubValue` | crates/tinymcp/src/agent_tools/scrub.rs:238-258 | The recursive walk, with its renaming of entries one after the other, comes to the specification that the following rows speak of. |
| `ScrubWords.HarmlessValueIsKept` | crates/tinymcp/src/agent_tools/scrub.rs:238-258 | A value in whose texts and names, at every depth, nothing is to be replaced, and whose objects have distinct names, is returned as it is. |
| `ScrubWords.ScrubbingKeepsShape` | crates/tinymcp/src/agent_tools/scrub.rs:238-258 | Every value keeps its shape at every depth: the same kind, the same numbers, booleans and nulls, as many items and entries. |
| `ScrubJson.NoEntryIsLost` | crates/tinymcp/src/agent_tools/scrub.rs:242-255 | Every object keeps its number of entries and all of its values, scrubbed, under distinct names, however many redacted names collide. |
| `ScrubJson.LeavesHoldNoSecret` | crates/tinymcp/src/agent_tools/scrub.rs:238-258 | No string at any depth of a scrubbed value holds a clean secret that is replaced anywhere. |
| `ScrubNames.PlainSecretsAreCleanOfSuffixes` | crates/tinymcp/src/agent_tools/scrub.rs:247-253 | A secret with no parenthesis, no space at its end and some character that is no digit cannot. |
| `ScrubNames.NamesHoldNoSecret` | crates/tinymcp/src/agent_tools/scrub.rs:198-203 | No object name at any depth of a scrubbed value holds a long secret that is clean of both, and names of one object differ. |
| `ScrubNamesExact.NeverNamedExactly` | crates/tinymcp/src/agent_tools/scrub.rs:238-258 | Exactly those secrets: a clean secret of eight bytes or more is kept out of every object name, by all scrubbers that hold it and in all values, if and only if it can overlap no numbered suffix. |
| `ScrubNamesExact.ObjectNamesSecret` | crates/tinymcp/src/agent_tools/scrub.rs:247-253 | For every other one, a list of secrets and an object, its entries in the order they are visited, whose scrubbed names hold it. |
| `ScrubExamples.NumberSpellsASecret` | crates/tinymcp/src/agent_tools/scrub.rs:163-258 | In particular, with a scrubber that was given "mykey (2)" and "wwwwwwww", encoded forms included: the names "[redacted]mykey" and "wwwwwwwwmykey" give "[redacted]mykey (2)". |
| `ScrubExamples.ReplacementSpellsASecret` | crates/tinymcp/src/agent_tools/scrub.rs:163-236 | And one that was given "x[redacted]y" and "wwwwwwww" makes the first of the text "xwwwwwwwwy". |
| `ScrubNames.ShortNameIsRedacted` | crates/tinymcp/src/agent_tools/scrub.rs:198-203 | An object name that is as a whole a short secret comes out as `[redacted]`, whatever the other secrets are. |
| `Decimal.PrintThenRead` | crates/tinymcp/src/agent_tools/scrub.rs:250-251 | Printing a number in decimal and reading it back is the identity, so different numbers print differently. |
| `LeftmostScan.LeftmostIsScan` | crates/tinymcp-bus/src/ui/links.rs:141-157 | A list of leftmost, non-overlapping matches that covers every match is the scan's. |
| `UrlSpans.UrlLenExactly` | crates/tinymcp-bus/src/ui/links.rs:160-181 | The scanner measures exactly the grammar: a scheme of 2 to 32 characters that starts with a letter, `://`, and the longest body, not empty. |
| `UrlSpans.SpansExactly` | crates/tinymcp-bus/src/ui/links.rs:135-157 | The spans found are the one list that is ordered, disjoint, made of URLs at word boundaries with the longest bodies, and such that every other URL at a word boundary starts inside one of them. |
| `UrlSpans.UrlSpans` | crates/tinymcp-bus/src/ui/links.rs:141-157 | The loops find them and read no more than 40 characters for each character of the text, where every character any of them reads goes through one counting method; the bound rests on the cap on schemes. |
| `UrlSpans.ScanText` | crates/tinymcp-bus/src/ui/links.rs:141-157 | The outer loop, with that bound: what is read at a place is paid for by the characters the scan moves past. |
| `UrlSpans.SchemeLength` | crates/tinymcp-bus/src/ui/links.rs:161-167 | The scheme loop gives the length of the run, up to one more than a scheme may have, and reads no more characters than that. |
| `UrlSpans.BodyLength` | crates/tinymcp-bus/src/ui/links.rs:174-180 | The body loop gives the length of the longest body and reads one character more at most. |
| `LinkRules.OpensExactly` | crates/tinymcp-bus/src/ui/links.rs:49-87 | Which links open, and how: an allowed scheme, something after it, no control character, the length limit, and for http(s) the pieces of an accepted URL whose path is no image. |
| `LinkRules.ImagesExactly` | crates/tinymcp-bus/src/ui/links.rs:95-102 | A path leads to an image exactly when, in lower case, it passes through `/image/upload/` or ends in a dot and one of the image extensions. |
| `LinkRules.BlockedInAnyCase` | crates/tinymcp-bus/src/ui/links.rs:19-38 | A blocked scheme opens nothing in any letter case. |
| `LinkRules.OpensInAnyCase` | crates/tinymcp-bus/src/ui/links.rs:49-87 | Two links that differ only in the letter case of their schemes open alike. |
| `LinkRules.NoSchemeOpensNothing` | crates/tinymcp-bus/src/ui/links.rs:51-54 | Nor does a text without a scheme. |
| `LinkRules.TrimTrailing` | crates/tinymcp-bus/src/ui/links.rs:204-219 | The kept part does not end loosely, and every longer start of the text does. |
| `LinkRules.TrimLoop` | crates/tinymcp-bus/src/ui/links.rs:204-219 | The loop computes it. |
| `LinkRules.TrimmedIsLongest` | crates/tinymcp-bus/src/ui/links.rs:204-219 | It is the longest start that does not end loosely, and a fixed point of trimming. |
| `JsonStrings.CollectStrings` | crates/tinymcp-bus/src/ui/links.rs:188-202 | The walk, cut short at 512 strings, adds what the recursive specification of the next row begins with. |
| `JsonPaths.StringsAreTheTexts` | crates/tinymcp-bus/src/ui/links.rs:188-202 | Those are exactly the texts that stand at most 8 levels deep in the value, in arrays and objects alike, in the order of their paths of item and entry positions. |
| `JsonPaths.OnlyOneOrder` | crates/tinymcp-bus/src/ui/links.rs:188-202 | There is one such list of paths. |
| `LinkExtraction.AddLinks` | crates/tinymcp-bus/src/ui/links.rs:115-130 | One text's spans with the early return give the same list as all of them without it. |
| `LinkExtraction.ExtractLinks` | crates/tinymcp-bus/src/ui/links.rs:107-133 | The whole extraction equals the first five of the distinct, actionable, trimmed candidates, structured content first. |
| `LinkExtraction.LinksAreSafe` | crates/tinymcp-bus/src/ui/links.rs:104-133 | Each link offered may be opened, ends firmly, is the start of a URL at a word boundary of one of the texts, is offered once, and there are at most five. |
| `LinkExtraction.NoLinkIsMissed` | crates/tinymcp-bus/src/ui/links.rs:104-133 | An actionable candidate is left out only when five links are offered. |
| `StructuredLinks.StructuredLinkIsOffered` | crates/tinymcp-bus/src/ui/links.rs:104-133 | An actionable link in one of the first 512 texts that stand at most 8 levels deep in the structured content is offered, or five others are. |
| `StructuredLinks.LinksComeAsFound` | crates/tinymcp-bus/src/ui/links.rs:104-133 | Links are offered in the order in which they are first found. |
| `StructuredLinks.StructuredContentFirst` | crates/tinymcp-bus/src/ui/links.rs:104-133 | So a link found in structured content comes before every link found in the text only. |
| `Hosts.AddressesExactly` | crates/tinymcp-bus/src/ui/web_url.rs:69-78 | A host is accepted as an IPv4 address exactly when it is four bytes in print (IPv4address in section 3.2.2 of RFC 3986). |
| `Hosts.ReadThenDotted` | crates/tinymcp-bus/src/ui/web_url.rs:69-78 | Reading an accepted address and printing it gives the same text. |
| `Hosts.DottedThenRead` | crates/tinymcp-bus/src/ui/web_url.rs:69-78 | Every printed address is accepted and reads back as itself. |
| `Hosts.AddressIsNoDomain` | crates/tinymcp-bus/src/ui/web_url.rs:80-100 | No host is both an address and a domain name. |
| `Hosts.LabelsExactly` | crates/tinymcp-bus/src/ui/web_url.rs:80-100 | A label of a domain name is exactly words of lower-case letters and digits joined by single hyphens, 63 characters at most. |
| `DotSegments.UnchangedExactlyWhenDotFree` | crates/tinymcp-bus/src/ui/web_url.rs:102-110 | The remove_dot_segments algorithm of section 5.2.4 of RFC 3986 leaves a path alone exactly when it has no dot segment. |
| `DotSegments.RefusesExactlyWhatWouldChange` | crates/tinymcp-bus/src/ui/web_url.rs:102-110 | The paths refused are exactly those that algorithm would change once encoded dots are decoded; an accepted path is also unchanged as written. |
| `WebUrls.PiecesAreAccepted` | crates/tinymcp-bus/src/ui/web_url.rs:35-58 | A URL put together from a valid scheme, host, port, path and tail is accepted, with its own path and its host in lower case. |
| `WebUrls.AcceptsExactly` | crates/tinymcp-bus/src/ui/web_url.rs:35-58 | What the splitter accepts and reports, exactly: the URLs made of such pieces. |
| `WebUrls.SplittingAgain` | crates/tinymcp-bus/src/ui/web_url.rs:35-58 | A reported host and path, put behind `https://`, split into the same host and path, and removing dot segments leaves the path unchanged. |
| `Slugs.MakeSlug` | crates/tinymcp/src/agent_tools/naming.rs:47-68 | The loop computes the slug. |
| `Slugs.SlugIsItsWords` | crates/tinymcp/src/agent_tools/naming.rs:36-68 | A slug is the words of its input, cut at separators and (when asked) at camel-case boundaries, in lower case, joined by underscores. |
| `Slugs.SpelledWordsAreRead` | crates/tinymcp/src/agent_tools/naming.rs:36-68 | Words written with separators between them are the words read. |
| `Slugs.CamelWordsAreRead` | crates/tinymcp/src/agent_tools/naming.rs:36-68 | Words written in camel case are the words read, where the text is split at capitals. |
| `Slugs.RunsAreOneWord` | crates/tinymcp/src/agent_tools/naming.rs:36-68 | A run of letters and digits is one word where it is not, and a run of capitals always is. |
| `Slugs.SlugKeepsExactlySlugs` | crates/tinymcp/src/agent_tools/naming.rs:36-68 | Slugging changes nothing exactly when the text is `[a-z0-9_]` with no leading, trailing or double underscore; so it is idempotent. |
| `Slugs.TruncatedIsCanonical` | crates/tinymcp/src/agent_tools/naming.rs:162-166 | A cut slug is a slug within the limit, a start of the original, and empty only if that was or the limit is zero. |
| `ToolNames.ServerWords` | crates/tinymcp/src/agent_tools/naming.rs:76-89 | The words of the server part are exactly those of the last segment, in order: those that are no noise when there is one, and else all of them; no word is added. |
| `ToolNames.ServerSlugIsShort` | crates/tinymcp/src/agent_tools/naming.rs:70-96 | The server part is a slug of 1 to 24 characters for every label. |
| `ToolNames.SegmentIsLast` | crates/tinymcp/src/agent_tools/naming.rs:70-96 | The segment read is what stands behind the last slash, without the scope signs before it. |
| `ToolNames.SuffixedNameIsSafe` | crates/tinymcp/src/agent_tools/naming.rs:148-154 | A shortened name keeps a non-empty start of the tool's slug, so the fallback is never needed. |
| `ToolNames.NamesAreSafe` | crates/tinymcp/src/agent_tools/naming.rs:98-123 | Every generated name, for all labels, tools and six-digit digests, starts with `mcp_`, is a slug, and has at most 64 characters. |
| `ToolNames.NamesReadAsWords` | crates/tinymcp/src/agent_tools/naming.rs:98-112 | A name that fits the limit reads `mcp`, the words of the server, the words of the tool, in this order, and is used whenever it fits. |
| `ToolNames.ShortenedNamesKeepTheirOrder` | crates/tinymcp/src/agent_tools/naming.rs:114-154 | A shortened name is the prefix, the server's part, a start of the tool's part that is not empty, and the digest. |
| `ToolNames.NameEndsInDigest` | crates/tinymcp/src/agent_tools/naming.rs:114-123 | A disambiguated name ends in an underscore and its digest, so names with different digests differ whatever the servers and tools are called. |

## Left out

- Transports, HTTP and stdio clients, OAuth, the supervisor, the bridge and the bus adapter: input and output.
- The per-row document rewrites of the storage migration and the legacy server conversions: field renames.
- AuditProtocol.NoEntryIsLostOrRepeated: covers runs in which a first checkpoint measures the target before anything is copied or once the source is gone; the code does not see to that, `RacingFirstCheckpointsRepeat` shows what follows, and `OrderlyExactly` that the condition is the weakest.
- AuditProtocol.StepKeepsInv: the same condition on the measuring step.
- AuditRivals.RivalsExactly: a rival finishes the whole import between two calls; rivals that get part of the way are openers of the transition system, where `NoEntryIsLostOrRepeated` covers them.
- AuditFamily.FirstOpenerMigrates: says that a run to the end exists; that every undisturbed one gets there is said of the method, `MigrateAuditStreams`.
- AuditRecovery.OneRerunRecovers: asks for full pages; without them `RerunRecoversExactly` says when a rerun completes.
- LifecycleRefinement.OpenIsServedAndClosedIsNot: asks that the environment do nothing harmful, which `HarmlessExactly` shows to be the weakest condition.
- ScrubLimits.GoneExactlyWhenClean: ranges over all ordered lists of secrets, also those no constructor makes; the examples are scrubbers as set up.
- ScrubNames.NamesHoldNoSecret: asks that the secret be clean of numbered suffixes, which `NeverNamedExactly` shows to be the exact condition.
- Saturating and fixed-width offsets in the import: offsets are mathematical integers.
- `snapshot`, `insert`, `cleanup_pending`, `close_pending` and `finish_if_closed` of the client table: reads of one map, or one call after a test.
- Mutex poisoning, reference counting and weak memory ordering: steps are sequentially consistent.
- Callbacks of the client table that call the table again while it holds locks: callbacks take no table lock.
- How a scrubber gathers secrets from an endpoint and its authentication (`SecretScrubber::new`): it rests on a URL parser and base64.
- Whole-word redaction of short secrets over several passes: a later pass can expose a new word boundary, so absence does not hold; each single pass is stated.
- ScrubJson.ScrubValue: entries stand in the order they are visited; the sorted order of the JSON map, which decides which of several colliding names is numbered first, is not modelled.
- ScrubJson.ScrubValue: values are rebuilt rather than updated in place.
- UrlSpans.UrlSpans: positions are characters; byte offsets of the slices are not modelled.
- `legacy_tool_name`, hexadecimal printing and SHA-256: digests are given.
- Widget policy, wire types, method tables and audit query clamps: one-branch facts.
