# Verification of the Attack Shark X3 manager

A Dafny model of the parts of the driver and manager that decide which physical
mouse is which, and of the hardware traffic they cause, with proofs.

## What is modelled

**The identity ceremony.** `Ceremony` is a transition system over two worlds side
by side: the durable document (mode, mice, journal, numbers, selection, endpoint
mapping) with the validation every commit must pass (`State`), and the physical
units with their profile slots, tails, metadata and working image (`Hardware`).
A step is one store commit, one burst of hardware traffic, or something the
environment does: replugging, using a mouse, bookkeeping. A run may stop between
any two steps, which is what a crash is. `CeremonySafety` proves an inductive
invariant, `CeremonyTheorems` and `CeremonyProgress` say what it means for the
user, `CeremonyCommits` says which commits validation accepts. `Manager` is the
class with the calls themselves (begin, reconnected, stamp, adopt, migration
decision, associate, cancel, forget) over scripted device and store faults; each
of its effects is proved to be a step (`ManagerSteps`), so whatever a call leaves
behind is a reachable state, and fault-free calls are proved to succeed.

`CeremonyLimits` says where a ceremony can end badly, and that it can nowhere
else, with `CeremonyExamples` of it; `RestoreGuard` says what the guard of a
restore protects; `EnrollmentRun` takes two blank mice through a whole initial
enrollment; `Registration` is the one call outside ceremonies that adds a mouse.

**The profile machine.** `Session` is the USB session over one unit with any
number N >= 2 of slots. Every report may be lost, or fail after taking effect; a
section read may be answered without loading its target, or with noise; a
metadata read tells the truth or fails. The session holds the ordered metadata
write, the all-profile capture and its restoration, the reload check, watermark
stamping and profile updates; what they promise about slots, metadata and writes
holds under all of these faults unless the clause says otherwise, and what they
promise about the data read holds for reads that load and are not noisy.
`ProfileSafety` lifts the updates to whole runs on a device whose rate report
saves the entire working image.

**Discovery.** `Discovery` resolves connections by token, folds duplicates in
place, and attaches a single unknown connection; `Attachments` is the cache of
authenticated attachments and the gate in front of every session, beside the
units at the paths it describes; `Gate` joins it to the ceremony's world and to
profile updates.

**Compact pieces.** The watermark codec with its CRC-32 (`Watermark`), civil dates
(`Calendar`, `Timestamp`, with decimal printing in `Decimal`), the rotating log
(`RotatingLog`), device keys (`DeviceKey`), and the simulated mouse (`Simulator`).

## Findings

Where the code does not do what a reader would expect, the exact condition is
proved and a witness given:

- `forget_device` leaves the endpoint mapping alone, so validation refuses the
  commit for every remembered mouse (`CeremonyCommits.ForgetAcceptedIff`,
  `RememberedMouseCannotBeForgotten`).
- The initial enrollment's final commit keeps the endpoint mapping while all mice
  are replaced, so it is accepted only when nothing is remembered
  (`CeremonyCommits.DecideAcceptedIff`,
  `CeremonyExamples.RememberedEndpointBlocksDecision`); both mice are stamped by
  then, so the enrollment can never be finished or cancelled.
- The store commits a closure's changes even when the closure returns an error
  (`Manager.Commit`), where the comment at manager.rs:2953-2956 promises that
  nothing is left behind. What is left differs by ceremony. The migration decision
  fails when fewer than two numbers are left and leaves a trace exactly when one
  is: it is used up (`CeremonyLimits.DecideTraceIff`,
  `CeremonyExamples.DecisionUsesUpNumber`). An addition or adoption after its last
  stamp, and an adoption with nothing to stamp, fail exactly when no number is
  left and then always leave the ceremony parked
  (`CeremonyLimits.TransitionTraceIff`, `EnrollTraceIff`,
  `CeremonyExamples.AdditionParksForGood`, `AdoptionLeavesTrace`); a restore never
  fails. `Manager.Stamp`, `Adopt`, `Reconnected` and `FinalizeMigration` state the
  document they leave.
- So ceremonies have dead ends: exactly the ones `CeremonyLimits.DeadEndIff`
  lists, for good (`DeadEndIsForGood`), and reachable only over a remembered
  endpoint, the end of the numbers, or an endpoint that cannot be stored
  (`StuckOnlyOver`).
- The guard with which a restore starts, that its mouse is not connected, is not
  repeated when the new unit is presented and the mouse is chosen again. It still
  protects the mouse bound exactly when that mouse has no stored path the first
  one had not and nothing was plugged at its stored paths since
  (`RestoreGuard.ProtectedIff`). Both ways out are runs through the calls:
  another, connected mouse (`OtherMouseIsBound`), and the same mouse with its own
  unit plugged in again (`OwnUnitIsBack`). The connected unit then ends up no
  mouse's (`CeremonyProgress.RestoreOrphansOldUnit`).
- Where a stale cache entry fools the gate (last item), the update that follows
  stamps one mouse's token on another's unit, and the guarantees about who is who
  are lost (`Gate.FooledUpdate`): an update keeps them exactly when it leaves the
  watermarks alone or the unit is no other mouse's
  (`CeremonyProgress.UpdateReachableIff`, `MisdirectedUpdateUnreachable`). With a
  truthful cache it always does (`Gate.UpdateThroughGate`).
- The migration can name both new mice alike: exactly when the legacy mouse is
  named like one subject's default and uniquely matches the other
  (`CeremonyCommits.NewNamesDifferIff`, `CeremonyExamples.DecisionNamesBothAlike`).
- `register_device` can bring the number of a forgotten mouse back
  (`Registration.RegisterEvolvesIff`, `ForgottenNumberReturns`).
- Eligibility reads only the current profile, so outside adoption a valid mark on
  another profile is overwritten (`CeremonyProgress.OtherProfilesMarksAreNotSeen`).
- A stored endpoint may come from a connection that stays unassociated
  (`Discovery.AttachedRowResolves`, `StoredEndpointCanBeForeign`).
- The attachment cache believes an entry as long as the same endpoint object is
  presented, where the comment at manager.rs:183-188 promises that a replug never
  reuses a stale answer. A path vacated and taken again before a completed scan,
  by whatever endpoint object, or a scan abandoned by a failing read, can leave an
  entry that lies: exactly when it differs from the new unit's mark
  (`Attachments.AttachmentCache.Plug`, `ReusedPathFoolsTheGate`,
  `AbandonedScanKeepsStaleEntry`). A watermark stamped while attached does the
  same (`AttachmentCache.Stamp`, `EntryTruthfulIff`, `EnrolledMouseIsRefused`).

## Model

| member | source | states |
|---|---|---|
| Watermark.ValidIffEncoded | crates/attack-shark-x3/src/protocol/dpi.rs:158-183 | a tail decodes to a token exactly when it is that token's own 25-byte image, so damaged or foreign bytes never yield an identity |
| Watermark.EncodedLayout | crates/attack-shark-x3/src/protocol/dpi.rs:91-112 | byte for byte, a token's image is X3ID, version 1, the token, and the checksum of those in big-endian order |
| Watermark.EncodeInjective | crates/attack-shark-x3/src/protocol/dpi.rs:91-112 | two tokens never share an image |
| Watermark.ViewFaithful | crates/attack-shark-x3/src/protocol/dpi.rs:158-183 | the form in which the rest of the model holds tails loses nothing: it separates different tails and agrees with strict decoding |
| Watermark.CrcSeesOneByte | crates/attack-shark-x3/src/protocol/dpi.rs:95-98 | changing any one byte always changes the checksum |
| Watermark.DamagedByteIsNoIdentity | crates/attack-shark-x3/src/protocol/dpi.rs:158-183 | a watermark with any one byte damaged is absent, from the future or malformed according to the byte, and never an identity |
| Watermark.CrcCheckValue | crates/attack-shark-x3/src/protocol/dpi.rs:31-33 | over the digits 1 to 9 the checksum meets the published check value of IEEE CRC-32 |
| Session.MetadataPlanSafe | crates/attack-shark-x3-manager/src/backend.rs:1031-1051 | no intermediate control write of raise, activate, lower names a disabled profile, and there are only as many writes as fields that differ |
| Session.AlternateExistsIff | crates/attack-shark-x3-manager/src/verification.rs:508-516 | for an enabled target an alternate profile exists exactly when more than one is enabled; it is the current one, or else the lowest other one |
| Session.CaptureOrderCovers | crates/attack-shark-x3-manager/src/refresh.rs:203-254 | the capture walk starts at the current profile and then visits the others in ascending order, every slot exactly once |
| Session.UsbSession.SetMaximum | crates/attack-shark-x3/src/driver/worker.rs:261-290 | success means the device holds exactly the new maximum; refused without a write below the current profile |
| Session.UsbSession.Activate | crates/attack-shark-x3/src/driver/worker.rs:292-321 | success means exactly the profile is current; refused without a write when it is already or is not enabled |
| Session.UsbSession.WriteProfileMetadata | crates/attack-shark-x3-manager/src/backend.rs:1031-1051 | under any faults, success means the device holds exactly the target and the commands sent are exactly the plan |
| Session.UsbSession.WriteExactMetadata | crates/attack-shark-x3-manager/src/verification.rs:541-554 | anything but a verified readback of the expected metadata is an error; slots never change |
| Session.UsbSession.ReadProfile | crates/attack-shark-x3/src/driver/worker.rs:329-341 | three section reads of which each may load, be noisy or fail: the working image stays or becomes the target's stored one, truthful reads return the stored sections, and noise-free ones that load nothing the working image's |
| Session.UsbSession.ReadLivePollingRate | crates/attack-shark-x3/src/driver/worker.rs:153-159 | without noise the rate read is the working image's, whatever alias is named |
| Session.UsbSession.CaptureImages | crates/attack-shark-x3-manager/src/refresh.rs:203-254 | with truthful reads success means a map from every slot to its own image and its own rate, whatever was live before |
| Session.UsbSession.CaptureAll | crates/attack-shark-x3-manager/src/refresh.rs:143-201 | slots never change; success takes N control writes, or N+2 if the maximum had to be raised, and with truthful reads is the pure capture; the original metadata is back on every exit whose error is not a restoration error |
| Session.UsbSession.WriteDpi | crates/attack-shark-x3/src/driver/worker.rs:177-188 | with truthful reads a readback write succeeds only if the slot then holds the written DPI state; only that slot's DPI can change |
| Session.UsbSession.WriteRateUnchecked | crates/attack-shark-x3/src/driver/worker.rs:244-259 | the save-alias write stores the whole working image into the slot, or nothing |
| Session.UsbSession.UpdateRate | crates/attack-shark-x3-manager/src/manager.rs:1297-1355 | no other slot can change; on every path only the target's rate can change when the reads load their target, whatever they return, and nothing but the stored or the desired image with the new rate can be saved when they return what is loaded, whatever that is |
| Session.UsbSession.UpdateDpi | crates/attack-shark-x3-manager/src/manager.rs:1372-1400 | only the target's DPI can change, and every DPI report and tail it leaves carries the mouse's own watermark; a confirmed update leaves at every position the patch names its byte, at every other the baseline's, and without a token the baseline's tail |
| Session.UsbSession.ApplySections | crates/attack-shark-x3-manager/src/manager.rs:1372-1461 | the composite update stops at the first failure having changed only named sections; after a confirmed success each named section is the baseline's with exactly the named bytes exchanged, and the rest of the slot is as it was |
| Session.UsbSession.ApplyUpdate | crates/attack-shark-x3-manager/src/manager.rs:1257-1461 | an update that is neither bytes for non-empty sections nor one rate alone touches nothing; otherwise only the named sections of the named profile can change, on success and on every failure, a rate update having one of its two defences; a confirmed success leaves exactly the named bytes or the rate exchanged; without faults it succeeds exactly when it is of one of the two kinds and has its baseline, or for a rate the stored image as desired and the profile current |
| Session.UsbSession.StampOne | crates/attack-shark-x3-manager/src/manager.rs:2499-2536 | at most one DPI report, whose settings are the captured ones and whose tail is the token's watermark; with truthful reads success means the slot holds exactly these; no other slot or section can change |
| Session.UsbSession.ReadComplete | crates/attack-shark-x3-manager/src/verification.rs:518-527 | with truthful reads sections and live rate read together are one slot's complete image |
| Session.UsbSession.Reread | crates/attack-shark-x3-manager/src/verification.rs:86-110 | success means the device really left the target profile and came back before the second read |
| Session.UsbSession.VerifyReload | crates/attack-shark-x3-manager/src/verification.rs:43-155 | no slot changes; every exit leaves the metadata as found unless the restoring write failed; a comparison was made across a real switch to the current or lowest other profile and back, reports no mismatch exactly when image, rate and maximum are the same twice, otherwise the first resource that differs, and with truthful reads describes the target slot |
| ProfileSafety.Perform | crates/attack-shark-x3-manager/src/manager.rs:1257-1461 | every manager operation, under every fault script that leaves a rate update one of its two defences, is a step that changes nothing it does not name |
| ProfileSafety.UnnamedSectionsSurvive | crates/attack-shark-x3-manager/src/manager.rs:1257-1461 | over any run of updates, captures, reload checks and metadata writes, a section of a slot differs at the end only if some operation named it |
| ProfileSafety.PerformAll | crates/attack-shark-x3-manager/src/manager.rs:1257-1461 | the same for any sequence of operations run on one device session, whenever its reads load their target or each rate update had one of its defences |
| ProfileSafety.SaveHarmlessIff | README.md:209-215 | a rate write touches only the target's rate exactly when the working image already equals the target's sections |
| ProfileSafety.ComparedSaveHarmlessIff | crates/attack-shark-x3-manager/src/manager.rs:1297-1355 | a working image that passes the comparison, loaded or not, is saved harmlessly exactly when the desired image is the stored one |
| ProfileSafety.UnloadedReadClobbers | crates/attack-shark-x3-manager/src/manager.rs:1297-1355 | the witness that one defence is needed: reads answered without loading and a stale desired image overwrite the stored buttons although the image was compared |
| ProfileSafety.SkippingLoadClobbers | README.md:209-215 | skipping the load before a rate write overwrites another profile's buttons with the live ones |
| State.AllocateTakesNext | crates/attack-shark-x3-manager/src/state/model.rs:711-723 | on a validated document the next number is free, so allocation takes exactly it or reports overflow |
| CeremonySafety.AdmittedUnitIsFresh | crates/attack-shark-x3-manager/src/manager.rs:1859-1930 | an admitted unit is no enrolled mouse's and no earlier subject's unit |
| CeremonySafety.CaptureTracks | crates/attack-shark-x3-manager/src/manager.rs:1959-2009 | the journaled subject describes exactly what the unit holds |
| CeremonySafety.MarkCommitTracks | crates/attack-shark-x3-manager/src/manager.rs:2173-2195 | journaling a sent mark keeps journal and unit in step and uses up one pending profile |
| CeremonySafety.FinalizeOneKeeps | crates/attack-shark-x3-manager/src/manager.rs:2957-3069 | adding, adopting and restoring leave the mouse on exactly the unit that was stamped |
| CeremonySafety.FinalizeEnrollmentKeeps | crates/attack-shark-x3-manager/src/manager.rs:3075-3132 | initial enrollment leaves two mice on exactly the two stamped units |
| CeremonySafety.RefusedAssociationNeverCommits | crates/attack-shark-x3-manager/src/manager.rs:2353-2418 | a refused association changed nothing or is stopped by validation |
| CeremonySafety.ValidatedJournal | crates/attack-shark-x3-manager/src/state/model.rs:887-1183 | in a validated document every journaled stamp names its token, no reserved token is a mouse's yet, and exactly a restore takes a token away, that of the mouse it restores |
| CeremonySafety.StepKeepsInv | crates/attack-shark-x3-manager/src/manager.rs:1658-2453 | every step, the environment's included, keeps the invariant tying journal, mice and units together |
| CeremonyTheorems.RunKeepsInv | crates/attack-shark-x3-manager/src/manager.rs:1658-2453 | every state of every run, stopped anywhere, satisfies the invariant |
| CeremonyTheorems.JournalMatchesHardware | crates/attack-shark-x3-manager/src/manager.rs:2088-2196 | a profile journaled as stamped has the captured settings, preferences, buttons and rate and the token's watermark; before a reservation nothing has changed; of the pending profiles only the least can already be marked, likewise |
| CeremonyTheorems.StampingHasWorkAndIsBounded | crates/attack-shark-x3-manager/src/manager.rs:2148-2196 | the stamping stage always has a pending profile, and reports sent never exceed the profiles pending at capture plus the interruptions |
| CeremonyTheorems.NoUnitEnrolledTwice | crates/attack-shark-x3-manager/src/manager.rs:1859-1930 | no unit is ever enrolled under two mice or presented twice in one ceremony, as long as no profile update reaches another mouse's unit |
| CeremonyTheorems.AdmittedIsNew | crates/attack-shark-x3-manager/src/manager.rs:1859-1930 | in every reachable state the second mouse of an initial enrollment is not the first again, whichever profile is current, as long as no profile update reaches another mouse's unit |
| CeremonyTheorems.OwnerShowsItsToken | crates/attack-shark-x3-manager/src/manager.rs:94-102 | an enrolled mouse's unit shows its own token, and nobody else's, whichever profile is current, as long as no profile update reaches another mouse's unit |
| CeremonyTheorems.TokensIdentify | crates/attack-shark-x3-manager/src/manager.rs:2759-2794 | in persistent mode tokens are assignable and pairwise distinct |
| CeremonyTheorems.ReferencesExist | crates/attack-shark-x3-manager/src/state/model.rs:726-840 | the selected mouse and every remembered mouse exist in every reachable state |
| CeremonyTheorems.StepEvolves | crates/attack-shark-x3-manager/src/manager.rs:2957-3132 | one step only grows the next number, keeps persistent mode, gives new mice unused numbers, and rotates a token only by a restore |
| CeremonyTheorems.IdentitiesAreForGood | crates/attack-shark-x3-manager/src/manager.rs:2957-3132 | over any stretch of ceremonies, forgetting and bookkeeping mode never returns to legacy and every new mouse has a number unused before; direct registration is not among these steps |
| CeremonyTheorems.NumbersNeverReused | crates/attack-shark-x3-manager/src/manager.rs:2614-2623 | in runs without direct registrations a mouse number that disappears never comes back, so a stale reference can never reach another mouse |
| CeremonyTheorems.RestoreRetiresToken | crates/attack-shark-x3-manager/src/manager.rs:2993-3035 | a token changes only when a restore of that mouse finalizes, which ends the ceremony; no mouse of the document had the new token, and none has the old one afterwards |
| CeremonyProgress.StampedNeverShrinks | crates/attack-shark-x3-manager/src/manager.rs:2173-2250 | as long as a ceremony lasts no capture is rewritten, no reserved token exchanged, no stamped profile becomes pending |
| CeremonyProgress.PendingMeasure | crates/attack-shark-x3-manager/src/manager.rs:2148-2196 | within the stamping stage the pending count falls by one at each journaled mark and never moves otherwise |
| CeremonyProgress.CompletionKeepsEverythingElse | crates/attack-shark-x3-manager/src/manager.rs:2145-2250 | a ceremony that completes leaves every slot of every unit it enrolls with the captured settings, preferences, buttons and rate and the new mouse's watermark as tail, and stores that capture |
| CeremonyProgress.AdoptionWritesNothingIff | crates/attack-shark-x3-manager/src/manager.rs:1965-2018 | an adoption needs no watermark report exactly when every slot already carries the adopted token |
| CeremonyProgress.AdoptionReplacesNoMark | crates/attack-shark-x3-manager/src/manager.rs:1965-1996 | over any run, adoption only ever fills tails that carried no mark |
| CeremonyProgress.AdmittedIff | crates/attack-shark-x3-manager/src/manager.rs:1859-1930 | which current marks each ceremony admits, in both directions |
| CeremonyProgress.OtherProfilesMarksAreNotSeen | crates/attack-shark-x3-manager/src/manager.rs:1997-2001 | outside adoption a valid mark on a profile that is not current protects nothing: every profile is scheduled for stamping, and such units exist |
| CeremonyProgress.CancelLeavesAtMostOneMark | crates/attack-shark-x3-manager/src/manager.rs:2425-2453 | cancelling leaves at most one slot of the presented unit different from its capture |
| CeremonyProgress.UpdateReachableIff | crates/attack-shark-x3-manager/src/manager.rs:1393-1398 | an update by a mouse on a unit that is no subject's leads to a reachable state exactly when it leaves the watermarks alone or the unit is no other mouse's |
| CeremonyProgress.AuthenticatedUpdateIsUse | crates/attack-shark-x3-manager/src/manager.rs:929-941 | an update by a mouse on any unit whose current watermark is its token, its own or a copy, and which is no subject's, keeps every reachable-state guarantee |
| CeremonyProgress.MisdirectedUpdateUnreachable | crates/attack-shark-x3-manager/src/manager.rs:1393-1398 | an update by one mouse that marks another mouse's unit leads to a state that no run reaches |
| Gate.FooledUpdate | crates/attack-shark-x3-manager/src/manager.rs:925-941 | a run through the calls: after a path was reused before a scan completed, opening and updating one mouse stamps its token on another's unit, a state that no run reaches |
| Gate.UpdateThroughGate | crates/attack-shark-x3-manager/src/manager.rs:847-927 | opening a mouse through the gate with a truthful cache and updating whatever unit is at its path keeps the world reachable, under every fault script that leaves a rate update one of its defences, outside ceremonies always and inside unless the unit is a subject's |
| Gate.ScanInWorld | crates/attack-shark-x3-manager/src/manager.rs:169-290 | a scan, whatever it attaches and however it fails, leads to a reachable state, changing nothing but endpoints and memories |
| CeremonyCommits.BeginAcceptedIff | crates/attack-shark-x3-manager/src/state/model.rs:887-1183 | validation lets a ceremony start exactly when its kind fits the mode |
| CeremonyCommits.ReserveAccepted | crates/attack-shark-x3-manager/src/manager.rs:2088-2126 | a minted token's reservation is always accepted |
| CeremonyCommits.MarkAccepted | crates/attack-shark-x3-manager/src/manager.rs:2173-2195 | journaling a stamp that leaves work is always accepted |
| CeremonyCommits.EnrollAcceptedIff | crates/attack-shark-x3-manager/src/manager.rs:2020-2048 | an admitted unit's capture is accepted on whatever endpoint it is presented; only an adoption that completes on the spot needs an endpoint the mouse can be stored with |
| CeremonyCommits.ParkedAccepted | crates/attack-shark-x3-manager/src/manager.rs:2198-2250 | the transition after the last stamp is accepted at whichever stage follows |
| CeremonyCommits.FinalizeOneAcceptedIff | crates/attack-shark-x3-manager/src/manager.rs:2957-3069 | finalizing a stamped single-subject ceremony passes validation exactly when it failed for want of a number or its endpoint can be stored |
| CeremonyCommits.DecideAcceptedIff | crates/attack-shark-x3-manager/src/manager.rs:3075-3132 | the initial enrollment's final commit is accepted exactly when no endpoint mapping is remembered and both endpoints can be stored |
| CeremonyCommits.LegacyNameGoesToUniqueMatch | crates/attack-shark-x3-manager/src/manager.rs:3081-3103 | the legacy name goes to a subject exactly on a unique exact match, or where it is the subject's default name anyway; without the match the subject gets its default name |
| CeremonyCommits.NewNamesDifferIff | crates/attack-shark-x3-manager/src/manager.rs:3081-3120 | the two new mice get different names exactly unless a unique match passes on a legacy name that is the other's default |
| CeremonyCommits.ForgetAcceptedIff | crates/attack-shark-x3-manager/src/manager.rs:782-798 | forgetting a mouse is accepted exactly when neither the endpoint mapping nor a running restore names it |
| CeremonyCommits.RememberedMouseCannotBeForgotten | crates/attack-shark-x3-manager/src/manager.rs:782-798 | a document in which forgetting a remembered mouse is refused |
| CeremonyLimits.DecideTraceIff | crates/attack-shark-x3-manager/src/manager.rs:3075-3132 | the migration decision fails exactly when two numbers are not left, and what it then leaves in the document is the one left being used up, exactly when there is one |
| CeremonyLimits.TransitionTraceIff | crates/attack-shark-x3-manager/src/manager.rs:2198-2250 | the transition after the last stamp fails exactly when it needs a number and none is left, and every such failure leaves the ceremony parked in the document |
| CeremonyLimits.EnrollTraceIff | crates/attack-shark-x3-manager/src/manager.rs:2020-2048 | journaling a capture fails exactly for an adoption with nothing left to stamp and no number left, and leaves it parked in the document |
| CeremonyExamples.DecisionUsesUpNumber | crates/attack-shark-x3-manager/src/manager.rs:2953-2956 | a validated document whose decision fails and uses up the last number |
| CeremonyExamples.AdditionParksForGood | crates/attack-shark-x3-manager/src/manager.rs:2953-2956 | a validated document whose last stamp fails for want of a number, and the parked document that leaves, which can be neither finished nor cancelled |
| CeremonyExamples.AdoptionLeavesTrace | crates/attack-shark-x3-manager/src/manager.rs:2953-2956 | a world in which journaling the capture of a fully marked unit fails for want of a number and leaves a trace |
| CeremonyExamples.DecisionNamesBothAlike | crates/attack-shark-x3-manager/src/manager.rs:3075-3132 | a validated document whose decision gives both new mice the same name |
| CeremonyExamples.RememberedEndpointBlocksDecision | crates/attack-shark-x3-manager/src/manager.rs:3075-3132 | a validated document ready for the decision whose commit validation refuses because one endpoint is remembered |
| CeremonyLimits.DeadEndIff | crates/attack-shark-x3-manager/src/manager.rs:2060-2453 | in every reachable state of every ceremony some call goes on exactly unless it is one of the listed dead ends |
| CeremonyLimits.DeadEndIsForGood | crates/attack-shark-x3-manager/src/manager.rs:2060-2453 | nothing the program or the environment does ever ends a ceremony that reached a dead end, or loses what it journaled |
| CeremonyLimits.StuckOnlyOver | crates/attack-shark-x3-manager/src/manager.rs:2294-2330 | in a reachable dead end the numbers ran out, an endpoint cannot be stored, or an initial enrollment awaits its decision with an endpoint remembered |
| Registration.RegisterEvolvesIff | crates/attack-shark-x3-manager/src/manager.rs:755-776 | registering a mouse directly obeys the evolution of numbers exactly when the mouse exists or its number was never handed out |
| Registration.RegisteredDocument | crates/attack-shark-x3-manager/src/manager.rs:755-776 | when a registration is refused for want of a number, and the document it leaves: no existing mouse touched, a selection kept, the next number above the mouse's own |
| Registration.RegisterAcceptedIff | crates/attack-shark-x3-manager/src/manager.rs:755-776 | which new mice validation lets a registration add, in either mode and beside a running ceremony |
| Registration.ForgottenNumberReturns | crates/attack-shark-x3-manager/src/manager.rs:755-798 | the number of a forgotten legacy mouse comes back whenever it is registered again |
| Registration.SomeNumberReturns | crates/attack-shark-x3-manager/src/manager.rs:755-798 | a document with such a mouse exists |
| Registration.FirstRegistrationReachable | crates/attack-shark-x3-manager/src/manager.rs:755-776 | registering the first mouse of a legacy document under the next number leads to a reachable state of the ceremony system |
| CeremonyProgress.RestoreOrphansOldUnit | crates/attack-shark-x3-manager/src/manager.rs:2993-3035 | after a restore the unit the mouse was on before, connected or not, is no mouse's and shows a token no mouse has |
| RestoreGuard.ProtectedIff | crates/attack-shark-x3-manager/src/manager.rs:1723-1757 | whatever was connected when a restore began, the mouse it binds later is unconnected exactly when that mouse has no stored path the mouse begun for had not, as when it is the same one, and nothing was plugged at its stored paths since |
| RestoreGuard.RestoreRun | crates/attack-shark-x3-manager/src/manager.rs:1932-1957 | on a working system a restore begun for one unconnected mouse is accepted for any mouse, whatever is connected when the blank unit is presented |
| RestoreGuard.OtherMouseIsBound | crates/attack-shark-x3-manager/src/manager.rs:1723-1757 | a run through the calls in which a restore begun for mouse 1 binds mouse 2, whose own unit is connected all along |
| RestoreGuard.OwnUnitIsBack | crates/attack-shark-x3-manager/src/manager.rs:1723-1757 | a run through the calls in which a restore begun for mouse 1 binds mouse 1 after its own unit was plugged in again |
| EnrollmentRun.EnrollTwo | crates/attack-shark-x3-manager/src/manager.rs:1658-2330 | a whole initial enrollment through the calls: begun, both mice presented and stamped, decided, each mouse on its own unit and endpoint |
| Manager.MintUniqueToken | crates/attack-shark-x3-manager/src/manager.rs:2457-2495 | the first of sixteen draws that collides with nothing, or none if all do |
| Manager.BuildSubject | crates/attack-shark-x3-manager/src/manager.rs:1848-2008 | whatever the device does no slot changes; a subject is built only from an eligible unit, which it describes exactly: token, mouse, slots, and as stamped exactly the profiles that carry the adopted token; without faults it is built exactly from an eligible unit, and otherwise refused for the first thing wrong with it |
| Manager.Manager.Commit | crates/attack-shark-x3-manager/src/state/store.rs:438-453 | a commit happens whole or not at all and only if validation accepts it; the closure's error is reported after it |
| Manager.Manager.Begin | crates/attack-shark-x3-manager/src/manager.rs:1658-1771 | without store faults, exactly which requests start a ceremony, and for what each other one is refused, changing nothing |
| Manager.Manager.Reconnected | crates/attack-shark-x3-manager/src/manager.rs:1816-2053 | a presented unit new to every mouse is captured and journaled without a slot changing; on a working system it is accepted exactly when its current profile's tail and, in an adoption, every other tail fits, the target can be bound, and an adoption complete on the spot can be stored, and is refused for the first of these that fails; a refusal by a working store leaves the document as it was, or parked for want of a number with the capture pushed |
| Manager.Manager.SendProfile | crates/attack-shark-x3-manager/src/manager.rs:2160-2172 | one watermark report at most, and confirmed only if the slot carries it |
| Manager.Manager.StampPending | crates/attack-shark-x3-manager/src/manager.rs:2145-2196 | pending profiles are stamped in ascending order, each journaled before the next is written |
| Manager.Manager.Stamp | crates/attack-shark-x3-manager/src/manager.rs:2060-2264 | success leaves every slot with the captured settings, preferences, buttons and rate and the token's watermark, the metadata restored, and the ceremony advanced or over with the mouse made, nothing else of the document differing; a failure costs at most one interruption and, on a working store, moves nothing in the document but the last subject's token and progress, forward, or parks the ceremony for want of a number; without faults it succeeds exactly when the mouse can be stored |
| Manager.Manager.Adopt | crates/attack-shark-x3-manager/src/manager.rs:2272-2288 | confirming an adoption makes a nameless mouse under the next number on its unit, with every slot as captured but for the adopted token's watermark, and changes nothing else of the document; without faults it succeeds exactly when the mouse can be stored, no token being minted; a refusal leaves what a refused stamping leaves |
| Manager.Manager.FinalizeMigration | crates/attack-shark-x3-manager/src/manager.rs:2294-2330 | success makes one mouse per subject under the next two numbers, selects the first, and gives a mouse the legacy mouse's name exactly if migration is wanted and its capture alone equals the legacy evidence, else its default name; on a working store it succeeds exactly when two numbers are left, nothing is remembered and both mice can be stored, and otherwise changes nothing but a single number left, which is used up |
| Manager.Manager.Associate | crates/attack-shark-x3-manager/src/manager.rs:2336-2418 | success adds the endpoint to the target mouse and closes the journal, changing nothing else; on a working store it succeeds exactly for a BLE endpoint with a platform id when the ceremony is waiting, the target exists and the endpoint is no other mouse's |
| Manager.Manager.Cancel | crates/attack-shark-x3-manager/src/manager.rs:2425-2453 | succeeds exactly while no stamp is journaled, and only clears the journal |
| Manager.Manager.Forget | crates/attack-shark-x3-manager/src/manager.rs:782-798 | removes a mouse, clearing only a selection of that mouse, exactly when it exists, may be removed and nothing else names it |
| Manager.Manager.GoOn | crates/attack-shark-x3-manager/src/manager.rs:2060-2453 | from every state of a ceremony that is no dead end a call succeeds on a working system: cancelling, stamping, presenting the second mouse, or deciding |
| ManagerSteps.TransitionStep | crates/attack-shark-x3-manager/src/manager.rs:2198-2250 | the transition after the last stamp is a step, what it leads to, that it succeeds exactly when the mouse can be stored, and what running out of numbers leaves behind |
| ManagerSteps.FitsPlanned | crates/attack-shark-x3-manager/src/manager.rs:1959-2009 | an adoption has a stamp plan exactly when every profile carries the adopted token or no mark, and the plan leaves out exactly the former |
| ManagerSteps.FitsAdmitted | crates/attack-shark-x3-manager/src/manager.rs:1859-1930 | for every tail of the current profile, in every ceremony, whether the unit is admitted, with which token, and otherwise the reason |
| ManagerSteps.OneBecomes | crates/attack-shark-x3-manager/src/manager.rs:2957-3069 | the whole document after an addition, adoption or restore: one mouse made from the subject, every other mouse, the selection and the memories untouched |
| ManagerSteps.PairDocument | crates/attack-shark-x3-manager/src/manager.rs:3075-3132 | the whole document after the migration decision, names included, for either choice |
| Discovery.ValidTokenResolvesIff | crates/attack-shark-x3-manager/src/manager.rs:2759-2794 | a valid token resolves to a mouse exactly when it is free and that mouse is its only owner; it stays unknown exactly when it is free and unowned |
| Discovery.NeverTwoOwners | crates/attack-shark-x3-manager/src/manager.rs:2786-2794 | on a validated persistent document the duplicate-owner answer never happens |
| Discovery.WithoutTokenNoGuess | crates/attack-shark-x3-manager/src/manager.rs:2704-2755 | in legacy mode everything is the fuzzy mouse; otherwise, without a valid token, a USB connection resolves to nobody, with the right reason, and a BLE one exactly to the first associated mouse |
| Discovery.MarkScanDuplicates | crates/attack-shark-x3-manager/src/manager.rs:2820-2848 | in place, exactly the rows with a same-transport twin of the same unknown token become duplicates |
| Discovery.FoldIdempotent | crates/attack-shark-x3-manager/src/manager.rs:2820-2848 | folding twice changes nothing |
| Discovery.FoldCommutesWithReordering | crates/attack-shark-x3-manager/src/manager.rs:2820-2848 | folding commutes with any reordering of the scan |
| Discovery.SilentIff | crates/attack-shark-x3-manager/src/operation.rs:321-369 | the decision tree read backwards: exactly when an endpoint, remembered or not, attaches silently, sets up, asks new-or-mine, or asks which |
| Discovery.DecideTakes | crates/attack-shark-x3-manager/src/manager.rs:343-379 | the only undecided connection is given exactly to the mouse remembered for it that does not disagree, or else to the only saved mouse if the connection is USB or the mouse has evidence |
| Discovery.AttachedRowResolves | crates/attack-shark-x3-manager/src/manager.rs:349-416 | an attached row ends up resolved to its mouse exactly unless it presents a token that mouse does not own; endpoint and memory are stored either way |
| Discovery.CommitSilent | crates/attack-shark-x3-manager/src/manager.rs:380-395 | commits exactly the listed attachments, changing only endpoints and memories and keeping the document valid |
| Discovery.Reresolve | crates/attack-shark-x3-manager/src/manager.rs:396-416 | undecided rows become exactly what the document now remembers, if it does not disagree |
| Discovery.PendingIff | crates/attack-shark-x3-manager/src/manager.rs:247-282 | which connections of a scan are left to decide: connected ones with no association, no mark, or a free token of nobody's that no other of their transport shows |
| Discovery.AutoResolve | crates/attack-shark-x3-manager/src/manager.rs:301-417 | nothing happens during a ceremony or unless exactly one connected row is undecided; then, with working commits, the remembered mouse that does not disagree, else the only saved one, gets the endpoint and is remembered, and the row is resolved to it unless it shows another token; if there is no such mouse nothing happens |
| Discovery.Scan | crates/attack-shark-x3-manager/src/manager.rs:247-282 | a usable token of a saved mouse is resolved to it, an associated BLE connection to its mouse, and the only connection that needs a decision gets it; damaged, future, reserved and shared marks stay unassociated with their reason; a connection presenting a valid token never ends on a mouse owning another; at most one connected row is newly attached and none when two are unknown |
| Discovery.StoredEndpointCanBeForeign | crates/attack-shark-x3-manager/src/manager.rs:352-395 | a stored endpoint can be replaced by one presenting an unknown token although its row stays unassociated |
| Attachments.AttachmentCache.Discover | crates/attack-shark-x3-manager/src/manager.rs:183-229 | a completed scan keeps exactly the entries of what it lists, which is known then; an abandoned one forgets nothing that was vacated; no scan makes a truthful cache lie |
| Attachments.AttachmentCache.Plug | crates/attack-shark-x3-manager/src/manager.rs:183-188 | a unit plugged in at a free path keeps the cache truthful exactly when the path has no entry or one for its own mark, and always when the path was not vacated since the last completed scan |
| Attachments.AttachmentCache.Stamp | crates/attack-shark-x3-manager/src/manager.rs:2160-2172 | a watermark written to an attached unit keeps the cache truthful exactly when the path has no entry or one for that token |
| Attachments.AttachmentCache.Authenticate | crates/attack-shark-x3-manager/src/manager.rs:929-950 | the answer is the cached one for the same endpoint object and otherwise the watermark read from the unit at the path; with a truthful cache it is that unit's watermark |
| Attachments.AttachmentCache.OpenLocked | crates/attack-shark-x3-manager/src/manager.rs:847-927 | the path of the selected endpoint is opened whatever unit is there; for a mouse with a token the session is handed out exactly when the authentication answers that token, and with a truthful cache only on a unit that carries it; any other mouse is opened exactly when its endpoint can be; refused as in setup exactly during an initial enrollment or when a subject names the mouse |
| Attachments.SelectedEndpoint | crates/attack-shark-x3-manager/src/device.rs:281-300 | the preferred transport's endpoint if there is one, else wired before receiver before BLE; none exactly when the mouse has none |
| Attachments.EntryTruthfulIff | crates/attack-shark-x3-manager/src/manager.rs:929-950 | an entry read from the unit stays truthful exactly as long as the last token stamped since, if any, is the one that was read |
| Attachments.ReusedPathFoolsTheGate | crates/attack-shark-x3-manager/src/manager.rs:183-188 | two endpoint objects at one path: the first mouse is opened on the second one's unit, unless a scan completed in between |
| Attachments.AbandonedScanKeepsStaleEntry | crates/attack-shark-x3-manager/src/manager.rs:206-228 | a scan that a failing read abandons keeps the entry of a unit that left, and the unit that takes its path makes the cache lie; a completed scan prevents it |
| Attachments.EnrolledMouseIsRefused | crates/attack-shark-x3-manager/src/manager.rs:2160-2172 | a unit scanned before it was enrolled is refused as its own mouse while it stays plugged in |
| Attachments.ReplugAuthenticates | crates/attack-shark-x3-manager/src/manager.rs:183-188 | whatever the cache holds, unplugging, a completed scan and plugging in again open the mouse |
| Calendar.LoggerFormIsStepped | crates/attack-shark-x3-manager/src/diagnostics.rs:266-289 | for every day count the closed form is the Gregorian calendar stepped day by day from 1970-01-01 |
| Calendar.CivilStep | crates/attack-shark-x3/examples/watermark_probe.rs:589-612 | for all integers the signed form moves to the next calendar day |
| Calendar.CivilIsStepped | crates/attack-shark-x3/examples/watermark_probe.rs:589-612 | the signed form equals counting days one by one from the epoch |
| Calendar.FormsAgree | crates/attack-shark-x3-manager/src/diagnostics.rs:266-289 | the two forms agree from day -719468 on |
| Calendar.CivilValid | crates/attack-shark-x3/examples/watermark_probe.rs:589-612 | every value is a real date |
| Calendar.CivilInverts | crates/attack-shark-x3/examples/watermark_probe.rs:589-612 | the day count can be recovered from the date |
| Calendar.CivilOnto | crates/attack-shark-x3/examples/watermark_probe.rs:589-612 | every real date is the value of its day count |
| Calendar.CivilMonotone | crates/attack-shark-x3/examples/watermark_probe.rs:589-612 | earlier days are earlier dates |
| Timestamp.TimestampRoundTrip | crates/attack-shark-x3-manager/src/diagnostics.rs:255-264 | before year 10000 a timestamp has twenty characters and reads back as its second |
| Timestamp.OnlyTimestampsRead | crates/attack-shark-x3-manager/src/diagnostics.rs:255-264 | whatever reads as a timestamp is the one printed for that second |
| Timestamp.PrintedFields | crates/attack-shark-x3-manager/src/diagnostics.rs:255-264 | the second a date and time stand for is printed as these, in their order, with their separators |
| Timestamp.TimestampOrder | crates/attack-shark-x3-manager/src/diagnostics.rs:255-264 | before year 10000 string order is time order, both ways |
| RotatingLog.RetainedIsSuffix | crates/attack-shark-x3-manager/src/diagnostics.rs:422-472 | what the three files hold is always the tail of everything ever logged |
| RotatingLog.SizesBounded | crates/attack-shark-x3-manager/src/diagnostics.rs:422-472 | once rotated more than the last cap bytes remain; the base file never exceeds the cap or its own banner after an append |
| RotatingLog.RotatingFile.AppendLine | crates/attack-shark-x3-manager/src/diagnostics.rs:422-433 | the tracked size is the base file's, and an append is the specified one |
| RotatingLog.RotatingFile.Rotate | crates/attack-shark-x3-manager/src/diagnostics.rs:435-472 | rotation shifts both generations and starts the base file with the banner |
| DeviceKey.NewAcceptsIff | crates/attack-shark-x3-manager/src/device.rs:18-24 | a key is accepted exactly when it is printed from a number between 1 and 2^64-1 |
| DeviceKey.NumberInvertsFromNumber | crates/attack-shark-x3-manager/src/device.rs:26-39 | number inverts from_number, and different numbers make different keys |
| DeviceKey.ParsedIsCanonical | crates/attack-shark-x3-manager/src/device.rs:361-404 | a string that parses is already canonical, so the canonical-form check never fails |
| Simulator.LastWriteWins | crates/attack-shark-x3-manager/src/backend.rs:481-496 | after any accepted and rejected stores on any transport the host's images agree with the model's and every resource is what was last accepted for it |
| Simulator.ResourcesNameTheirProfile | crates/attack-shark-x3-manager/src/sim_model.rs:177-188 | no sequence of stores ever files a resource under another profile's number |
| Simulator.BatteryCountsWrites | crates/attack-shark-x3-manager/src/sim_model.rs:146-158 | the battery has drained once for each of the accepted writes' due moments and for nothing else |
| Simulator.DrainedClosedForm | crates/attack-shark-x3-manager/src/sim_model.rs:146-158 | after n accepted writes the level is the start minus n divided by writes-per-percent, floored at zero; a rate of zero never drains |
| Simulator.FreshAgrees | crates/attack-shark-x3-manager/src/backend.rs:408-457 | a fresh slot's host images agree, and BLE writes have a base exactly when the reference instance is readable |
| Simulator.SimModel.WriteProfile | crates/attack-shark-x3-manager/src/sim_model.rs:177-188 | a write is accepted exactly for a profile from 1 to 5 that all its resources name and that can be encoded; it replaces that profile and counts; a rejected one changes nothing |
| Simulator.SimSession.StoreSection | crates/attack-shark-x3-manager/src/backend.rs:481-496 | a store merges one resource onto what the host believes and is all or nothing |

## Left out

- Concurrent ceremony calls: `begin` and `cancel` check one load and overwrite without rechecking, so calls run one at a time; crashes happen inside them. Loading the document never fails.
- Transports, hotplug watching, event streams, sleeps, timeouts, retries and the busy-device gate of the driver: a report exchange is one step with an arbitrary outcome.
- Ceremony reads are taken to be truthful: a section read loads its target and returns what it loaded (`Truthful`). `Session` itself is proved without that where a clause does not say otherwise; metadata reads are never noisy, there either.
- `register_device` is no step of the ceremony system beyond the first mouse of a legacy document: it stores any endpoints and token its caller supplies, so no property about units survives it; `Registration` says what it does to the document.
- That no profile update reaches another mouse's unit is an assumption of every theorem about who is who; the gate guarantees it exactly as long as its cache is truthful (`Gate.UpdateThroughGate`, `CeremonyProgress.MisdirectedUpdateUnreachable`).
- While a subject is being stamped its endpoint is free or leads to its own unit, its slots are written by nobody else, and nothing outside the program erases an enrolled unit's watermarks. Units that are not enrolled may change in any way, including copying a mark.
- The two branches the program never expects (a valid mark under BLE association, an unmarked mouse under adoption) are refusals with reason `NotApplicable` instead of a panic.
- The stamping branch with nothing pending, which `CeremonyTheorems.StampingHasWorkAndIsBounded` proves unreachable, is not modelled.
- Timestamps and desired values inside stored evidence, device display names other than the legacy migration, blank-string checks on locators and serials, and the JSON form of the document.
- DPI stages, preference fields and button assignments are byte sequences; a delta is a patch of byte positions, so the rules for valid stages and fields are not part of the model.
- Persisting write outcomes and verification evidence, and the evidence invalidated by a capture.
- The endpoint fingerprint is an arbitrary function of the endpoint, and the order in which the document lists its mice is a parameter.
- BLE configuration writes and stored baselines beyond the choice of a supplied or missing copy.
- Waiting for a power cycle, candidate re-authentication after it, legacy rebinding, connection aggregation, and the endpoint associations a scan persists for resolved mice.
- Attachments.AttachmentCache.OpenLocked: does not take the per-mouse lock; whether the transport opens and whether a read succeeds are parameters. The cache holds USB entries only; that a session is on the right unit is proved from a truthful cache, and when the cache stays truthful is stated beside it.
- Log behaviour under failing file operations, log formatting, redaction, and the banner's text, which is a parameter.
- Machine integer overflow of the day count beyond 64 bits; day counts are unbounded integers.
- The simulator's replay backend, its polling rate, and the token overlaid on its reads; whether an image can be encoded is an arbitrary predicate.
