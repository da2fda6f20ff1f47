# Verified model of the LG appliance integration's stateful core

The integration keeps state across commands, reports and connections that arrive in any order: which
climate frame may be composed from half-aged readings, when a cloud write makes them unusable, what
a reconnecting subscriber may believe, what a slow REST reply overwrites.  This project models those
parts of `custom_components/my_lg` in Dafny and proves what they keep over whole runs.

Objects that the source updates in place are classes with the source's fields; their methods are
proved against functions on values, and the theorems about runs are lemmas about those functions.
Home Assistant, HTTP, MQTT transport and SQLite appear as inputs: an outcome, an answer, a clock
reading, one instant of the file system.  Loops over dictionaries pick their keys in any order, so
their contracts hold for every iteration order.

`dafny verify dfyconfig.toml` checks everything.

## Modules

- `Wrappers`, `DecimalText`: optional values, and decimal literals and `|`-separated fields as the
  command strings spell them.
- `ClimateFrame`, `TupleRouter`, `TupleRuns`, `TupleFence`, `TupleFallback`, `TupleOneCommand`,
  `TupleAfterWrite`, `TupleTwoRuns`, `TupleOtherRun`, `TupleForgets`, `TupleNoPast`, `TupleProvenance`:
  the local climate protocol.  `ClimateFrame` composes and prints whole frames from a shadow whose
  fields age one by one.  `TupleRouter` is the router object with its overlay, cloud barrier and
  per-mode memory.  The others are about runs of reports, cloud writes and commands: the pruned overlay
  refines "newest wins", the fence holds over every run and is put up by every command left to the
  cloud, what commands after it still take from before the write (by comparing runs that differ in
  nothing else), when a run has forgotten its past, and where every argument comes from.
- `CommandPath`, `CommandFrames`: the climate entity's choice between bridge and cloud, as a trace of
  effects tied to a specification of what each request comes to, and that every frame, payload and shown
  state says what was asked for.
- `CompositeDomain`, `CompositeRules`, `TargetGrid`: the printer and the recognizer of composite
  commands, what interlocks and grids forbid, the climate overlay, and the temperature grid with its
  tolerance.
- `MqttLog`, `MqttFeed`, `MqttTrace`, `MqttDelivery`, `MqttSubscriber`, `MqttTurns`, `MqttArrival`,
  `MqttReports`: the two-thread subscriber.  The log records everything put aside or handed over; the
  feed's fields are proved to be what replaying the log gives.  The trace beside it says of every entry
  which callback made it and how many connection events there had been, which is what fencing is stated
  on; what must be delivered is stated on the log alone.
- `DeepMerge`, `PatCoordinator`, `RefreshOrder`: the algebra of status merges, a refresh overlapped by
  pushes, and when it ends as if the reply had come first.
- `RateLimiter`: the sliding window, over the whole history rather than the pruned deque.
- `DeviceIdentity`, `IdentityMeaning`, `WideqCoordinator`, `IdentityFixpoint`: one identity resolution,
  what it says of each device, every run of them, and what becomes of blocked devices.
- `FeatureRows`, `FeatureBranches`, `FeatureMeaning`, `FeatureAcceptance`, `ConfirmedFeatures`,
  `ConfirmedOverlay`, `ControlTables`, `SplitTables`: what a confirmed feature makes of a control and
  when a control takes it, and the overlay of confirmed features on the control tables and on the scopes
  of the bindings.
- `EnergyLedger`, `TokenCache`: the consumer of the cumulative energy feed, and the cached change token
  of the feature database against the uncached reader.

## Where the code does less than a reader may expect

Each entry names the input for which a property fails and the exact condition under which it holds.

- The cloud fence is lifted as a whole once mode, fan and the argument of the variant then current
  are re-reported.  A command after it can still send an argument known before the cloud write: a
  reported one of another variant (`OtherVariantMayPredateTheFence`), a remembered one, since a cloud
  write keeps the memory (`RememberedArgumentMayPredateTheFence`), or one of these that the appliance
  has confirmed in the meantime (`ConfirmedOldArgumentIsSentAgain`).  Whether anything was remembered
  decides whether such a command composes a frame at all, and so the mode of the next one
  (`WhetherRememberedDecides`).  Take any run from a cloud write on, and all others with the same
  events, fence and observation times: their memory at the write is any other, with more entries or
  fewer, and every value reported not later than the write is any other, usable or not.  The commands
  compose the same in all of them if and only if every command is clean (`AfterTheWrite`).  A command
  is clean if it is stopped; if the argument it reads was reported strictly later or stands in the
  overlay and, where a placeholder has to be replaced, the caller offers one or the remembered one was
  learned since, from such a reading or from a confirmed command; or if it would compose nothing even
  with a usable argument in place of each that is older.  Of the first command that is not clean, two of
  the runs compose different arguments, or one composes nothing; where both compose, mode and fan are
  the same (`ModeAndFanAfterTheWrite`).
- After a command that was not clean, two runs may have different overlays, fences and memories.  They
  meet again: from any instant on, whatever the pasts, they compose the same as long as each command
  that is served reads mode, fan and argument as reported or confirmed after the instant, and takes a
  retained argument from there or from the caller (`ForgetsThePast`).  After such
  commands, of those that compose a frame no others do (`ForgottenIff`).
- A fence that a command has lifted is forgotten.  If the command is then left to the cloud, the new
  fence exceeds the old one in every field of the variant it worked in; in the other argument if and
  only if that was reported not before the old baseline (`LiftedFenceIsExceeded`).  It was not if the
  old baseline came from a confirmation that no report followed (`LiftedFenceIsForgotten`).
- The target grid is checked with a tolerance, so targets within a billionth of a step of a grid point
  are admitted too (`AdmittedIff`).  On half-degree grids this changes nothing for targets with at
  most k decimals if and only if 10^k steps are fewer than a billion degrees (`ExactUpToIff`): for a
  step of half a degree up to nine decimals, and from the tenth on it does, as for 18.0000000001
  (`AdmittedOffGrid`, `ToleranceAcceptsOffGrid`).
- A refresh overlapped by pushes ends, for every known status and every object reply, as if the reply
  had come before the first push if and only if at no path one push has a plain value and the pushes
  together an object (`ObjectReplyLinearizes`; one push alone is always in order).  Otherwise the status
  may be one that no place of the reply among the pushes gives (`NoOrderExplains`).  A list reply
  takes effect in that order if and only if there was no push or one of them is a list
  (`ListReplyLinearizes`).
- Identity resolution is one-to-one exactly when no unclaimed WideQ id is listed under two unique
  signatures (`MappingIsInjective`).  Resolving again with the result changes nothing if and only if
  every unpaired device is blocked exactly when a record of its signature is left over, and is not
  alone with a single one (`ResolvingAgainIsIdleIff`; a store that is one-to-one meets this, a
  contested one need not, `ContestedStoreIsNotIdle`).  In the integration the block on the claimants
  of a contested record lasts until the first poll, which pairs such a device if and only if it is the
  only unpaired one of its name and one unpaired record has that name (`BlockEndsAtTheFirstPoll`,
  `NextPollPairsTheUnique`, `FirstPollPairsABlockedDevice`).
- Of the old values that a scope withheld, the humidifier's operation mode grants all
  (`OperationModeWithholdsNothing`), and a numeric extension those, and only those, which the scope
  holds as the same number in another spelling (`ScopesStayRestrictive`, `WithheldStaysWithheld`).
- The descriptor list and the per-model index of the overlaid contract agree if and only if no feature
  extended, with a new value, a control that an earlier feature of the list added (`TablesAgreeIff`);
  a list of two features for which they differ is `TwoFeaturesSplitTheTables`.
- A queued report of a refused subscription carries no generation, unlike every other callback.  It
  comes to its turn on a later connection if and only if the network thread had already counted that
  connection when the report was made and the loop has begun it since (`ReportsTurn`; a run is
  `AStaleReport`).  It then drops what was put aside, but no retry; and it can undo an established
  subscription only if an answer to the message id was queued before the id was given
  (`ReportsTurn`, `Interleave`, `AnEarlyAnswer`).

## Assumptions

- Clocks and per-field report times do not go backwards, and a command holds its device's lock from
  its first reading to its last write.
- The bridge is honest about what it did not send: a failed connection, a 4xx and a 503 mean no frame.
- Event-loop callbacks run one at a time; the network thread may be interrupted between building a
  callback and handing it over.
- Commits to the feature database change its version and a replaced file's identity is not reused.

## Model

| member | source | states |
|---|---|---|
| `ClimateFrame.FrameIsSafe` | custom_components/my_lg/local_command.py:309-416 | AUTO frames carry a comfort step and no others do; dry and fan-only frames restate the reported ordinary target; a power-fan frame is a cooling frame without a requested target; every argument was requested, or is the expected one of an ordinary state, or the retained one where the reported one is a placeholder |
| `ClimateFrame.NoLostUpdate` | custom_components/my_lg/local_command.py:289-437 | an unnamed mode or fan equals the expected state sent with the frame; so does an unnamed argument unless the command crosses into or out of AUTO or the reported fan is power |
| `ClimateFrame.AcceptedFrameChangesOnlyTheRequest` | custom_components/my_lg/local_command.py:274-437 | through a compare-and-set bridge an accepted frame changes exactly the requested settings of the appliance |
| `ClimateFrame.SameSpelling` | custom_components/my_lg/local_command.py:356-437 | the tuple printer and the composite printer give the same string for the same tuple |
| `ClimateFrame.ConfirmationInvertsRendering` | custom_components/my_lg/local_control_router.py:90-120 | reading a sent command string back yields exactly the fields its frame set, without the target when the fan is power |
| `ClimateFrame.ReadBackIsOfTheString` | custom_components/my_lg/local_control_router.py:90-120 | any string that is read back claims its own mode and fan, and an argument of that mode in range unless the fan is on power |
| `TupleRouter.LocalControlRouter.MarkCloudTupleDispatch` | custom_components/my_lg/local_control_router.py:493-519 | a cloud write drops the overlay and fences the device at the latest of shadow, overlay and earlier fence, field by field; other devices are untouched |
| `TupleRouter.LocalControlRouter.CloudTupleBarrierBlocks` | custom_components/my_lg/local_control_router.py:521-536 | the fence blocks until mode, fan and the current variant's argument are each strictly newer, and is lifted as a whole then |
| `TupleRouter.LocalControlRouter.ShadowWithConfirmation` | custom_components/my_lg/local_control_router.py:445-480 | in-place pruning of the overlay yields the effective shadow and leaves exactly the entries no report has overtaken |
| `TupleRouter.LocalControlRouter.LayOver` | custom_components/my_lg/local_control_router.py:463-480 | the loop over the overlay's fields, in any order, lays over exactly the fields not overtaken |
| `TupleRouter.LocalControlRouter.RememberModeArgument` | custom_components/my_lg/local_control_router.py:404-443 | only a fresh, non-power reading is remembered, a comfort step for AUTO and a target per other mode |
| `TupleRouter.LocalControlRouter.TakeOver` | custom_components/my_lg/local_control_router.py:807-835 | a confirmed command string becomes the overlay and teaches the mode's argument |
| `TupleRouter.LocalControlRouter.Tuple` | custom_components/my_lg/local_control_router.py:702-836 | one locked tuple command: every exit, in the source's order, with its answer, the frame sent and the device state left behind |
| `TupleRouter.ComposedIsWritable` | custom_components/my_lg/local_control_router.py:769-803 | a composed frame has names without the separator and an argument in range, so its string can be read back |
| `TupleRuns.OverlayIsNewestWins` | custom_components/my_lg/local_control_router.py:445-480 | within the freshness bound the effective shadow reads as the newer of the last report and the last confirmation, field by field, the report winning ties |
| `TupleRuns.EveryCommandSeesTheNewest` | custom_components/my_lg/local_control_router.py:702-836 | after any legal run, a command does exactly what it would on the newest-wins view of all reports and the last confirmed command |
| `TupleRuns.AgeRespected` | custom_components/my_lg/local_command.py:207-216 | memory and composition read a shadow only through fields that are fresh, so shadows equal when fresh are interchangeable |
| `TupleRuns.ExpiryNeverRevivesOldReports` | custom_components/my_lg/local_control_router.py:450-456 | when the overlay has expired every report it hid has too |
| `TupleRuns.RunKeepsInvariant` | custom_components/my_lg/local_control_router.py:445-536 | overlay, last confirmation, clock and fence stay consistent over every run of reports, cloud writes and commands |
| `TupleRuns.FenceExcludesOverlay` | custom_components/my_lg/local_control_router.py:493-519 | a fence and an overlay never stand together for a device, in any run |
| `TupleFence.FenceCoversEverythingKnown` | custom_components/my_lg/local_control_router.py:493-519 | each baseline is the latest known observation of its field and is one of them; marking again never lowers it |
| `TupleFence.CloudWriteFences` | custom_components/my_lg/local_control_router.py:493-519 | after a cloud write the fence stands at everything known of every field |
| `TupleFence.CloudFence` | custom_components/my_lg/local_control_router.py:482-536 | over any run from a cloud write on, no frame is composed before one command finds mode, fan and the current variant's argument each re-reported strictly later than everything known at the write |
| `TupleFence.OtherVariantMayPredateTheFence` | custom_components/my_lg/local_control_router.py:521-536 | the fence is lifted as a whole: lifted in cooling, it lets a later AUTO frame restate a comfort step last reported before the cloud write (the exact condition is in TupleOtherRun) |
| `TupleFallback.LeftToTheCloudIsFenced` | custom_components/my_lg/local_control_router.py:702-836 | a command left to the cloud, unless a standing fence stopped it, drops the overlay and fences every field at the latest of the reports when it ended, the overlay it found and an earlier fence it did not lift; the answer alone tells, not the steps in between |
| `TupleFallback.OverlayIsFenced` | custom_components/my_lg/local_control_router.py:493-519 | in every field of the overlay it found, unless that was too old to be looked at, the fence is not before the confirmation |
| `TupleFallback.LiftedFenceIsExceeded` | custom_components/my_lg/local_control_router.py:521-536 | a fence the command lifted is exceeded by the new one in each field of the variant it worked in; in the other argument if and only if that was reported not before the old baseline |
| `TupleFallback.LiftedFenceIsForgotten` | custom_components/my_lg/local_control_router.py:493-536 | an input for which it was not: a comfort step confirmed later than last reported is fenced at the report again |
| `TupleFallback.StandingFenceStays` | custom_components/my_lg/local_control_router.py:702-741 | a command that the standing fence stops changes nothing, the fence included |
| `TupleFallback.OnlyFallingBackFences` | custom_components/my_lg/local_control_router.py:702-836 | no other command puts up a fence, and one that was not confirmed then leaves of an overlay of the last ten minutes exactly the fields no report has caught up with, and of an older one nothing |
| `TupleFallback.AnswerIsTheBridges` | custom_components/my_lg/local_control_router.py:590-836 | a command is unserved if and only if the appliance is out of reach or fenced, nothing is composed, or the bridge did not take the frame; it is served as the bridge says, and the frame handed over is the one composed |
| `TupleFallback.ConfirmedIsLaidOver` | custom_components/my_lg/local_control_router.py:807-835 | a confirmed command lays its own mode, fan and argument over the reports, no target under power fan, as of the moment it ended |
| `TupleFallback.NoFrameBeforeReportedAnew` | custom_components/my_lg/local_control_router.py:482-836 | over any run from a command left to the cloud on, no frame is composed before one command finds mode, fan and the current variant's argument each reported strictly later than the fence and than everything reported when that command ended |
| `TupleOneCommand.ComposesIff` | custom_components/my_lg/local_command.py:274-437 | a frame is composed if and only if mode, fan and the argument of the reported mode are fresh and usable, the request fits the reported mode and fan, and there is an argument to send: named, retained where the reported one is a placeholder, or read |
| `TupleOneCommand.WhatIsComposed` | custom_components/my_lg/local_command.py:274-437 | the expected state is the reading, and the frame states what the request names, the reported mode and fan otherwise, and that argument |
| `TupleOneCommand.DependsOnlyIff` | custom_components/my_lg/local_control_router.py:743-785 | what a command composes, if anything, is the same whatever all but given report fields and given remembered modes hold, entries missing or values unusable included, if and only if these cover the argument read and any retained one needed, or nothing is composed even with a usable argument in place of the others |
| `TupleAfterWrite.RememberedArgumentMayPredateTheFence` | custom_components/my_lg/local_control_router.py:493-536 | a cloud write keeps the remembered arguments: after AUTO was re-reported, a command back to cooling sends the target remembered before the write |
| `TupleAfterWrite.ConfirmedOldArgumentIsSentAgain` | custom_components/my_lg/local_control_router.py:702-836 | a confirmation does not make such a target newer: the next command restates it from the overlay |
| `TupleAfterWrite.WhetherRememberedDecides` | custom_components/my_lg/local_control_router.py:702-836 | whether a target was remembered at the write decides whether a command composes a frame, and through its confirmation the mode and argument of a later one that reads nothing older |
| `TupleTwoRuns.CleanRunsAgree` | custom_components/my_lg/local_control_router.py:404-836 | while all commands are clean, any two runs with the same fence, observation times and events, whatever memory and values they had from before the write, keep the same fence, overlay and clean memory, and compose and send the same |
| `TupleTwoRuns.ModeAndFanAfterTheWrite` | custom_components/my_lg/local_control_router.py:493-836 | after clean commands, any next one that composes in two such runs composes the same mode and fan and expects the same: only the argument can differ, or whether a frame is composed |
| `TupleOtherRun.UncleanShows` | custom_components/my_lg/local_control_router.py:404-836 | for a run with a command that is not clean there is another legal run, unlike it only in values and memory from before the write, whose commands compose differently |
| `TupleOtherRun.AfterTheWrite` | custom_components/my_lg/local_control_router.py:404-836 | for every run from a cloud write on: all its commands compose the same whatever was known at the write, remembered or not, usable or not, if and only if every command is clean; then the same frames are sent |
| `TupleForgets.ForgetsThePast` | custom_components/my_lg/local_control_router.py:404-836 | from any instant on, runs whose pasts (reports, overlays, fences, memories) have nothing in common compose the same, as long as each command served reads mode, fan and argument from after the instant and takes a retained argument from there or from the caller |
| `TupleForgets.EveryWorldIsPast` | custom_components/my_lg/local_control_router.py:404-536 | whatever a run has come to, it is the past of some instant and of every later one |
| `TupleNoPast.ForgottenIff` | custom_components/my_lg/local_control_router.py:404-836 | after such commands, one that composes a frame composes it after every other past if and only if it is such a command |
| `TupleProvenance.MemoryIsGrounded` | custom_components/my_lg/local_control_router.py:404-443 | in any run, every remembered target or comfort step was read, or confirmed, at an earlier command under that mode with the fan not on power |
| `TupleProvenance.EveryFrameIsSourced` | custom_components/my_lg/local_control_router.py:702-836 | in any run, every argument sent was requested, offered by the caller, is the current reading under an ordinary state, or was remembered from an earlier one; AUTO steps lie in -2..2 |
| `TupleProvenance.StartsFromTheConfirmed` | custom_components/my_lg/local_control_router.py:769-803 | until the appliance reports again, the next command starts from exactly what the last confirmed one set |
| `TupleProvenance.ConfirmedCommandsCompose` | custom_components/my_lg/local_control_router.py:702-836 | a run of confirmed commands without a report adds up: the last frame's mode and fan are the latest named or the initial ones |
| `CommandPath.RefusedNeverReachedTheWire` | custom_components/my_lg/local_command.py:532-612 | given an honest bridge, an outcome handed on to the cloud never reached the wire |
| `CommandPath.AnswerTellsTheWire` | custom_components/my_lg/local_control_router.py:590-631 | an unserved tuple command was refused by the bridge or never sent |
| `CommandPath.UnservedIsUnsent` | custom_components/my_lg/climate.py:1090-1142 | the local attempt never writes to the cloud, and what it leaves unserved put no frame on the wire |
| `CommandPath.ControlIsOnePath` | custom_components/my_lg/climate.py:1027-1088 | a request is served by a frame or by a cloud write, never both, and by the cloud exactly if the local path left it unserved and the entity is not owned locally; state is shown exactly after an accepted cloud write or a confirmation; a cloud write of the tuple stands behind a fence |
| `CommandPath.PoweringIsOnePath` | custom_components/my_lg/climate.py:1175-1203 | a local power-on puts at most one frame on the wire, none if it leaves the request open, and writes nothing to the cloud |
| `CommandPath.ChoosingAModeIsOnePath` | custom_components/my_lg/climate.py:1147-1203 | choosing a mode, with or without powering on first, never puts a frame on the wire and writes to the cloud |
| `CommandPath.ClimateEntity.SentLocally` | custom_components/my_lg/climate.py:1090-1142 | the local attempt has exactly the outcome, effects and router state of the specification the lemmas are about |
| `CommandPath.ClimateEntity.CloudControl` | custom_components/my_lg/climate.py:1072-1079 | the retained tuple is fenced before the cloud write exactly if the write makes it unsafe |
| `CommandPath.ClimateEntity.Control` | custom_components/my_lg/climate.py:1027-1088 | likewise for one request |
| `CommandPath.ClimateEntity.PoweredOnLocally` | custom_components/my_lg/climate.py:1175-1203 | likewise for the local power-on |
| `CommandPath.ClimateEntity.SetHvacMode` | custom_components/my_lg/climate.py:1147-1173 | likewise for choosing a mode |
| `CommandFrames.EffectsAreOfWrite` | custom_components/my_lg/climate.py:1027-1142 | whatever one request does is about that request: the frame handed over has the mode, fan and target it names, everything else as expected (fan and target untouched when powering on); the payload written and shown is its own |
| `CommandFrames.ConfirmedSaysTheRequest` | custom_components/my_lg/climate.py:1027-1142 | if a tuple request is shown as confirmed, a frame that says it was handed over and the bridge confirmed it |
| `CommandFrames.AnswerDecides` | custom_components/my_lg/local_command.py:532-612 | if the bridge is asked, its answer decides: not connected, 4xx and 503 leave the request unserved, other 5xx, a failed transport and `unreported` leave it pending, `confirmed` and `already` confirm, `unverifiable` serves without confirming, anything else is an error; if it is not asked, the request is unserved, or refused by an option or a condition |
| `CommandFrames.AskedIff` | custom_components/my_lg/climate.py:1090-1142 | the bridge is asked if and only if the entity has a device, the request is authorized and meets its condition, and a frame is composed or, for power-off and flags, the local path is switched on and available |
| `CommandFrames.UnservedIsFenced` | custom_components/my_lg/climate.py:1061-1135 | a tuple request left unserved leaves the device fenced, whether or not the entity turns to the cloud: by the fence that stopped it, or at everything reported |
| `CommandFrames.LeftToTheCloud` | custom_components/my_lg/climate.py:1061-1088 | what is left unserved is written to the cloud once, its own payload, and shown only if the cloud takes it; under local ownership it is an error and nothing is written |
| `CommandFrames.CloudWriteFences` | custom_components/my_lg/climate.py:1072-1079 | a cloud write fences the device at everything reported if and only if its payload sets mode, fan or temperature or powers on, or the request powers on, and it is neither a flag nor a power-off |
| `CommandFrames.UnconfirmedIsNotShown` | custom_components/my_lg/climate.py:1052-1083 | what was served without confirmation, or is pending or in error, is not shown and not tried again |
| `CommandFrames.ChoiceEffects` | custom_components/my_lg/climate.py:1147-1203 | choosing a mode hands over frames in that mode only, writes and shows only power, and the mode if it has a cloud spelling; nothing while the power is unknown |
| `CommandFrames.ChoiceIsTriedLocally` | custom_components/my_lg/climate.py:1145-1173 | turning off, and choosing a mode for a running unit, is tried over the bridge first if and only if nothing stands in its way; nothing is done only under local ownership, a switched-off option or an unmet condition |
| `CommandFrames.LocalPowerComesFirst` | custom_components/my_lg/climate.py:1147-1203 | a unit that is off is powered on by one frame in the chosen mode, power and mode shown together once confirmed; only if that is unserved and the entity not owned locally does the power-on go to the cloud, and nothing follows in any other case |
| `CommandFrames.PowerComesFirst` | custom_components/my_lg/climate.py:1147-1173 | without a local spelling it is powered on over the cloud first, and the mode is written only if the cloud took that |
| `CompositeDomain.RecognizerIsPrinterImage` | custom_components/my_lg/local_control_composite_domain.py:187-258 | a string is authorized exactly if it fits a request and is the rendering of a legal command, and of one only |
| `CompositeDomain.PrintedIsAuthorized` | custom_components/my_lg/local_control_composite_domain.py:197-258 | whatever the printer prints is authorized exactly if it fits in 512 bytes |
| `CompositeDomain.AuthorizedIsPrinted` | custom_components/my_lg/local_control_composite_domain.py:242-258 | whatever is authorized is the rendering of the command read off it |
| `CompositeRules.AuthorizedIff` | custom_components/my_lg/local_control_composite_domain.py:187-258 | a string is authorized if and only if it fits in 512 bytes and spells a command whose mode and fan are listed, which no interlock of any of the four kinds forbids, and whose argument is allowed: a comfort step of the grid in AUTO, a target of the mode's range within the tolerance of its grid otherwise |
| `CompositeRules.AuthorizedFieldsAreAllowed` | custom_components/my_lg/local_control_composite_domain.py:187-258 | so its first two fields are listed and no interlock forbids them together |
| `CompositeRules.PowerFanOnlyCools` | custom_components/my_lg/local_control_composite_domain.py:187-195 | with the bundled interlock every authorized string with power fan is a cooling one |
| `CompositeRules.EncodedLength` | custom_components/my_lg/local_control_composite_domain.py:242-246 | the limit is on UTF-8 bytes: each character counts one to four by its code point (section 3 of RFC 3629) |
| `TargetGrid.AdmittedIff` | custom_components/my_lg/local_control_composite_domain.py:197-219 | for any range: a target is admitted if and only if it lies between the ends and within a billionth of a step of a grid point |
| `TargetGrid.ExactUpToIff` | custom_components/my_lg/local_control_composite_domain.py:197-219 | for any half-degree range and any k: among targets with at most k decimals exactly the grid points are admitted, if and only if 10^k times the step in half degrees is under two billion |
| `TargetGrid.AdmittedOffGrid` | custom_components/my_lg/local_control_composite_domain.py:208-217 | otherwise the first unit of the k-th decimal after the minimum is admitted, and is no grid point |
| `TargetGrid.HalfDegreesAdmitted` | custom_components/my_lg/local_control_composite_domain.py:197-219 | on half-degree grids the targets in half degrees that are admitted are the grid points from minimum to maximum exactly |
| `TargetGrid.ToleranceAcceptsOffGrid` | custom_components/my_lg/local_control_composite_domain.py:208-258 | an instance up to the recognizer: 18.0000000001 C is authorized on a half-degree grid |
| `CompositeDomain.AugmentConfirmedClimateDomain` | custom_components/my_lg/local_control_confirmed_features.py:69-94 | the overlay loop yields every feature's overlay in turn or refuses the catalogue |
| `CompositeRules.OverlayIff` | custom_components/my_lg/local_control_confirmed_features.py:69-94 | the overlay is made if and only if each feature that asks for it preserves exactly dry and fan-only, comes from the exact web domain, is declared and names a domain with a cooling range; then exactly the named domains change, and in them only these two modes, which get the cooling range |
| `CompositeDomain.OverlayKeepsOtherModes` | custom_components/my_lg/local_control_confirmed_features.py:69-94 | an accepted catalogue adds no capability and leaves every rendering outside dry and fan-only as it was |
| `CompositeDomain.OverlayKeepsOtherRequests` | custom_components/my_lg/local_control_confirmed_features.py:69-94 | and the recognizer on every request that does not name one of the two modes |
| `CompositeDomain.PreservedModeCarriesTheCoolGrid` | custom_components/my_lg/local_control_confirmed_features.py:81-93 | in an overlaid mode the admitted targets are those of cooling |
| `DecimalText.ParsePrinted` | custom_components/my_lg/local_control_composite_domain.py:242-258 | a printed decimal literal parses back to itself |
| `DecimalText.PrintParsed` | custom_components/my_lg/local_control_composite_domain.py:242-258 | a parsed decimal literal prints back to the same text |
| `DecimalText.HalvesAreExact` | custom_components/my_lg/local_control_router.py:111-118 | a literal read as half degrees is worth exactly that many |
| `DecimalText.JoinedSplit3` | custom_components/my_lg/local_control_composite_domain.py:242-258 | splitting at the first two bars loses nothing |
| `MqttLog.LiveComesAfterBootstrap` | custom_components/my_lg/local_mqtt.py:551-650 | no QoS 1 publication of a primary topic is delivered live before the first pair (or the full set) of its session was accepted, and no state or availability before the semantic pair was |
| `MqttLog.BootstrapHoldsTheLatest` | custom_components/my_lg/local_mqtt.py:599-650 | a bootstrap set holds, for each topic, the last publication put aside in the same session, not handed over before |
| `MqttLog.NothingIsLeftBehind` | custom_components/my_lg/local_mqtt.py:599-650 | a completed bootstrap leaves no buffered publication undelivered; a half-completed one only state and availability |
| `MqttTrace.SetIsOfOneConnection` | custom_components/my_lg/local_mqtt.py:489-650 | every publication of a bootstrap set was received, as a callback of the same client and generation, on the connection on which the set is handed over: its client had no connection event from that receipt to the hand-over |
| `MqttTrace.LiveIsOfOneConnection` | custom_components/my_lg/local_mqtt.py:489-650 | the set that lets a publication through live was accepted on the connection on which the publication was received |
| `MqttTrace.EffectAppended` | custom_components/my_lg/local_mqtt.py:447-597 | a callback that passes its guard keeps every log entry of one unbroken connection with its whole session |
| `MqttFeed.ProviderFeed.Dispatch` | custom_components/my_lg/local_mqtt.py:551-597 | a message is delivered, or put aside and the complete sets handed over, exactly as its topic, QoS and the phase say; the log stays well ordered |
| `MqttFeed.ProviderFeed.DrainRetainedBootstrap` | custom_components/my_lg/local_mqtt.py:599-632 | hands over exactly the complete sets, once subscriptions are ready; the transport becomes ready only then |
| `MqttFeed.ProviderFeed.DrainSemanticBootstrap` | custom_components/my_lg/local_mqtt.py:634-650 | hands over the semantic pair once it is complete, keeping it when refused |
| `MqttFeed.ProviderFeed.Open` | custom_components/my_lg/local_mqtt.py:537-549 | granted subscriptions open the side feeds and hand over what was put aside before the SUBACK |
| `MqttFeed.ProviderFeed.Forget` | custom_components/my_lg/local_mqtt.py:447-487 | a new or lost connection drops the buffer and closes every feed |
| `MqttDelivery.MessageIsDelivered` | custom_components/my_lg/local_mqtt.py:551-597 | a message that passes its guard appends an entry holding exactly its publication: to the side feed on a side topic, put aside if its topic is primary, its QoS 1 and its phase open, live otherwise; after it come at most sets it completed |
| `MqttDelivery.EffectKeepsNothing` | custom_components/my_lg/local_mqtt.py:489-650 | whatever a callback adds, while the subscription stands a complete set is in the buffer only if the provider refused exactly that set and nothing was put aside since |
| `MqttSubscriber.LocalPilotMqttSubscriber.OnConnection` | custom_components/my_lg/local_mqtt.py:254-317 | every connect or disconnect callback bumps the generation and makes all callbacks received before it stale |
| `MqttSubscriber.LocalPilotMqttSubscriber.OnSubscribe` | custom_components/my_lg/local_mqtt.py:319-342 | a SUBACK counts as granted exactly if every filter has return code 1 (section 3.9.3 of MQTT 3.1.1) |
| `MqttSubscriber.LocalPilotMqttSubscriber.HandOff` | custom_components/my_lg/local_mqtt.py:242-252 | the hand-off keeps order and is dropped once stopping |
| `MqttSubscriber.LocalPilotMqttSubscriber.BeginConnection` | custom_components/my_lg/local_mqtt.py:447-468 | a new connection starts unsubscribed with an empty buffer and one request: a retry in 300 seconds behind it, or a queued report |
| `MqttSubscriber.LocalPilotMqttSubscriber.ConnectionLost` | custom_components/my_lg/local_mqtt.py:470-487 | a lost connection leaves no timer, no readiness and no buffer |
| `MqttSubscriber.LocalPilotMqttSubscriber.HandleSuback` | custom_components/my_lg/local_mqtt.py:489-509 | a grant ends the retries and opens the feeds; a refusal keeps the running retry |
| `MqttSubscriber.LocalPilotMqttSubscriber.HandleSubscriptionFailure` | custom_components/my_lg/local_mqtt.py:511-528 | a failed request closes the feeds and schedules one retry, doubling the pause up to 1800 seconds |
| `MqttSubscriber.LocalPilotMqttSubscriber.RetrySubscription` | custom_components/my_lg/local_mqtt.py:530-535 | the timer asks again for the live connection |
| `MqttSubscriber.LocalPilotMqttSubscriber.Start` | custom_components/my_lg/local_mqtt.py:162-213 | a start makes one client; a failed one leaves none and stops |
| `MqttSubscriber.LocalPilotMqttSubscriber.Stop` | custom_components/my_lg/local_mqtt.py:215-240 | a stop leaves no client, timer, buffer or readiness |
| `MqttSubscriber.LocalPilotMqttSubscriber.RunNext` | custom_components/my_lg/local_mqtt.py:447-597 | a queued callback takes effect exactly if it passes its guard, and then its client had no connection event since it was received; the state and the log are those the callback calls for, a message that takes effect is delivered, and no complete set is kept; otherwise nothing changes |
| `MqttSubscriber.LocalPilotMqttSubscriber.Interleave` | custom_components/my_lg/local_mqtt.py:242-597 | after any interleaving of both threads: every log entry came of a callback whose connection was unbroken, and is of one connection with its session, so every bootstrap set is all of one connection; transport ready implies subscriptions ready implies connected; at most one retry timer, for the live connection, within 300 to 1800 seconds; no connection waits for nothing; the delivery log is well ordered, and no complete set is kept from its provider while the subscription stands |
| `MqttArrival.Arrives` | custom_components/my_lg/local_mqtt.py:344-597 | on a quiet live connection a received message is handed over and delivered, and nothing else changes |
| `MqttArrival.IsAnswered` | custom_components/my_lg/local_mqtt.py:319-509 | the answer to the present request establishes the subscription, and ends the retry, if and only if it grants every filter; otherwise the retry stays |
| `MqttArrival.Connects` | custom_components/my_lg/local_mqtt.py:254-487 | a connection the idle client reports is begun with nothing established and the subscription asked for, a retry in five minutes ahead, or its refusal reported; one reported lost leaves nothing to wait for |
| `MqttArrival.IsRefused` | custom_components/my_lg/local_mqtt.py:511-528 | a reported refusal on the live connection leaves a retry ahead, the present one or one after the present pause |
| `MqttArrival.PausesDouble` | custom_components/my_lg/local_mqtt.py:276-535 | requests left unanswered are repeated after 5, 10, 20 and from then on 30 minutes |
| `MqttReports.ReportsTurn` | custom_components/my_lg/local_mqtt.py:276-293 | a report of a refused subscription is stale when its turn comes if and only if a newer connection had been counted when it was made and that one has been begun since; a stale one takes no retry away, and with message ids new to the queue no report finds an established subscription |
| `MqttReports.AStaleReport` | custom_components/my_lg/local_mqtt.py:276-535 | a run in which the report comes to its turn on a later connection, whose request is still pending |
| `MqttReports.AnEarlyAnswer` | custom_components/my_lg/local_mqtt.py:489-515 | a run in which an answer queued before its message id was given lets a stale report find an established subscription |
| `MqttTurns.ConnectedIff` | custom_components/my_lg/local_mqtt.py:447-487 | after any turns of the loop it is connected if and only if the last beginning or loss that took effect was a beginning, and on that connection's generation |
| `MqttTurns.StandsIff` | custom_components/my_lg/local_mqtt.py:447-535 | the subscription stands if and only if the last of all turns but messages and retries was an answer that grants it |
| `MqttTurns.WaitsIff` | custom_components/my_lg/local_mqtt.py:276-535 | an answer is waited for if and only if the last of beginnings, losses, retries and answers was a request handed over, and then under the id it was given |
| `MqttTurns.RetryIff` | custom_components/my_lg/local_mqtt.py:392-535 | a retry is ahead if and only if the last turn that moves it handed a request over or reported a refusal |
| `MqttTurns.ReportedRetries` | custom_components/my_lg/local_mqtt.py:511-528 | a report without a retry ahead schedules one after the present pause, which doubles up to half an hour |
| `MqttTurns.RefusedIsReported` | custom_components/my_lg/local_mqtt.py:276-293 | a refused request is reported once, behind everything queued; no other request is |
| `DeepMerge.DeepMergeInto` | custom_components/my_lg/coordinator.py:30-45 | the in-place loop computes the merge, whatever the order of the keys |
| `DeepMerge.MergeAssociates` | custom_components/my_lg/coordinator.py:30-45 | merging reports of one shape is associative |
| `DeepMerge.LaterMergeAbsorbs` | custom_components/my_lg/coordinator.py:30-45 | merging a report of one shape before and after another equals merging it after |
| `DeepMerge.MergeConforms` | custom_components/my_lg/coordinator.py:30-45 | merging keeps the shape |
| `DeepMerge.MergeReadsNewest` | custom_components/my_lg/coordinator.py:30-45 | at every path the merge reads the newer report if it has a value there, and the older one otherwise |
| `PatCoordinator.PatDeviceCoordinator.HandleMqttStatus` | custom_components/my_lg/coordinator.py:121-138 | a push is merged onto the status and, during a refresh, also onto what the refresh will re-apply |
| `PatCoordinator.PatDeviceCoordinator.BeginRefresh` | custom_components/my_lg/coordinator.py:81-84 | a refresh starts with nothing to re-apply and leaves the status as it is |
| `PatCoordinator.PatDeviceCoordinator.FinishRefresh` | custom_components/my_lg/coordinator.py:81-114 | a finished refresh returns the reply and the pushes merged twice, or after a failure what the pushes made |
| `PatCoordinator.ApplyAllIsCombined` | custom_components/my_lg/coordinator.py:121-138 | pushes of one shape applied one by one give what their combination applied once gives |
| `RefreshOrder.ObjectReplyLinearizes` | custom_components/my_lg/coordinator.py:81-138 | for every known status and object reply the refresh ends as if the reply had come before the first push, if and only if at no path a push has a plain value and the combined pushes an object |
| `RefreshOrder.ListReplyLinearizes` | custom_components/my_lg/coordinator.py:30-114 | for a list reply, which an object push overwrites, if and only if there was no push or one of them is a list |
| `RefreshOrder.RefreshLinearizes` | custom_components/my_lg/coordinator.py:81-138 | so it does whenever the pushes follow one shape and the reply is an object like it, whatever the status and the reply hold |
| `RefreshOrder.MergedTwiceIsMergedLast` | custom_components/my_lg/coordinator.py:81-114 | one push alone never breaks the order: merged before and after the reply it is merged after it |
| `RefreshOrder.NoOrderExplains` | custom_components/my_lg/coordinator.py:30-138 | a push that turns an object into a plain value and the next one back leave a status that no place of the reply among the pushes gives |
| `RateLimiter.GlobalRateLimiter.Prune` | custom_components/my_lg/rate_limiter.py:40-45 | pruning keeps the deque the last hour's suffix of the whole history |
| `RateLimiter.GlobalRateLimiter.Acquire` | custom_components/my_lg/rate_limiter.py:36-60 | each admission keeps both limits over the whole history, whatever sleep overruns; a cancelled one leaves the history alone; with exact sleeps it is at the earliest legal instant |
| `RateLimiter.LegalHistory` | custom_components/my_lg/rate_limiter.py:36-60 | a history is legal if and only if it is ordered, the call max places after another is 3600 seconds later, and each is a spacing after the one before |
| `RateLimiter.IntervalBound` | custom_components/my_lg/rate_limiter.py:36-60 | any interval of length T holds at most max times (floor(T/3600) + 1) admissions |
| `RateLimiter.ScheduleIsLegal` | custom_components/my_lg/rate_limiter.py:36-60 | the schedule of earliest slots is legal |
| `RateLimiter.ScheduleIsEarliest` | custom_components/my_lg/rate_limiter.py:36-60 | it is pointwise no later than any legal first-come first-served schedule |
| `RateLimiter.ServeAll` | custom_components/my_lg/rate_limiter.py:36-60 | the limiter serves any list of arrivals exactly by that schedule |
| `DeviceIdentity.ResolveWideqDevices` | custom_components/my_lg/device_identity.py:50-121 | the successive dictionary loops, in any order, compute the resolution |
| `DeviceIdentity.ResolutionPartitions` | custom_components/my_lg/device_identity.py:50-121 | mapped, ambiguous and unmatched split the PAT devices |
| `DeviceIdentity.NeverGuesses` | custom_components/my_lg/device_identity.py:86-106 | a pair no stored claim asked for joins the only unclaimed device and the only unclaimed record of one signature |
| `DeviceIdentity.ContestedClaimIsBlocked` | custom_components/my_lg/device_identity.py:72-83 | devices whose stored pairs name one WideQ id are all blocked and the id is given to none |
| `DeviceIdentity.MappingIsInjective` | custom_components/my_lg/device_identity.py:62-121 | the mapping is one-to-one if and only if no unclaimed id is listed under two signatures that are each unique on both sides |
| `DeviceIdentity.DistinctIdsDoNotSplit` | custom_components/my_lg/device_identity.py:62-121 | with distinct WideQ ids the mapping is one-to-one |
| `DeviceIdentity.OrderDoesNotMatter` | custom_components/my_lg/device_identity.py:50-121 | permuting the records changes nothing, snapshots included when ids are distinct |
| `IdentityMeaning.StoredIff` | custom_components/my_lg/device_identity.py:62-83 | a device with a stored pair keeps it if no other known device is stored for the same id, and is blocked otherwise |
| `IdentityMeaning.UnstoredIff` | custom_components/my_lg/device_identity.py:86-121 | any other is paired if and only if it is the only unstored one of its folded name and one record of that name has an id nobody is stored for, and then with that id; it is blocked if there are such records otherwise, unmatched if there is none |
| `IdentityMeaning.SnapshotIff` | custom_components/my_lg/device_identity.py:50-121 | a paired device has the snapshot of the last record listed for its id, unless that is empty |
| `IdentityMeaning.PollDecides` | custom_components/my_lg/coordinator_wideq.py:287-306 | a poll decides so about every device, for the coordinator's pairs as the stored ones |
| `WideqCoordinator.WideqDataCoordinator.RestoreDeviceMap` | custom_components/my_lg/coordinator_wideq.py:237-280 | restoring keeps the unshared stored pairs of known devices and blocks the shared ones |
| `WideqCoordinator.WideqDataCoordinator.AddPatDevices` | custom_components/my_lg/coordinator_wideq.py:119-122 | new devices join without touching the pairing |
| `WideqCoordinator.WideqDataCoordinator.ResolveDevices` | custom_components/my_lg/coordinator_wideq.py:287-306 | one poll resolves from the present mapping and schedules a save exactly when it changed |
| `WideqCoordinator.RestoreIsSound` | custom_components/my_lg/coordinator_wideq.py:247-274 | whatever the store holds, the restored pairing is one-to-one |
| `WideqCoordinator.RestoredIff` | custom_components/my_lg/coordinator_wideq.py:237-280 | a stored pair is in the restored mapping if and only if its device is known, it is not empty and no other known device is stored for the same id; if one is, the device is blocked |
| `WideqCoordinator.StoredPairsStay` | custom_components/my_lg/coordinator_wideq.py:119-306 | such a stored pair is in the mapping after every run from the store |
| `WideqCoordinator.DevicesStayKnown` | custom_components/my_lg/coordinator_wideq.py:119-122 | a device added at any time is known from then on, under its last description |
| `WideqCoordinator.PairsAreForever` | custom_components/my_lg/coordinator_wideq.py:119-306 | through any polls and added devices the map stays one-to-one and a pair once present is never changed or dropped |
| `WideqCoordinator.ResolvingAgainIsIdle` | custom_components/my_lg/device_identity.py:50-121 | re-resolving with the result is a fixpoint when the stored pairs of known devices were one-to-one |
| `IdentityFixpoint.ResolvingAgainIsIdleIff` | custom_components/my_lg/device_identity.py:50-121 | for any store: re-resolving with the result changes nothing if and only if every unpaired device is blocked exactly when a record of its signature is left over, and is not alone with a single one |
| `IdentityFixpoint.ContestedStoreIsNotIdle` | custom_components/my_lg/device_identity.py:62-106 | a contested store that is not: both claimants are blocked the first time, one is paired by name the second |
| `IdentityFixpoint.PollPairsTheUnique` | custom_components/my_lg/coordinator_wideq.py:287-306 | a poll pairs an unpaired device if and only if it is the only unpaired one of its name and one unpaired record has that name |
| `IdentityFixpoint.NextPollPairsTheUnique` | custom_components/my_lg/coordinator_wideq.py:237-306 | and so does the next poll after any store and any events, whether or not restoring blocked the device |
| `IdentityFixpoint.BlockEndsAtTheFirstPoll` | custom_components/my_lg/coordinator_wideq.py:237-306 | from the first poll on the run is the one of a store without the contested pairs |
| `IdentityFixpoint.FirstPollPairsABlockedDevice` | custom_components/my_lg/coordinator_wideq.py:247-306 | so a device blocked by a contested store can be paired by the first poll |
| `ConfirmedFeatures.AugmentConfirmedFeatures` | custom_components/my_lg/local_control_confirmed_features.py:188-400 | the loop yields every feature applied in turn, the first malformed one refusing the whole overlay, and the patched descriptor list |
| `ConfirmedFeatures.GrantSelected` | custom_components/my_lg/local_control_confirmed_features.py:238-242 | the inner loop widens exactly the selected bindings' scopes, in any order |
| `FeatureMeaning.WhatAFeatureDoes` | custom_components/my_lg/local_control_confirmed_features.py:209-367 | a feature extends, as its kind says, exactly if it says the control exists and its values are the model's web domain (the native swing excepted) or it is the observed operation mode, and then needs exactly one control of its capability; any other adds one, if there is none and its schema is known |
| `FeatureMeaning.OtherScopesStay` | custom_components/my_lg/local_control_confirmed_features.py:203-398 | over a whole catalogue a binding's scope for a capability changes only by a feature of its model and that capability |
| `FeatureMeaning.UnboundModelsStay` | custom_components/my_lg/local_control_confirmed_features.py:203-398 | and a model that none of the bindings has keeps its controls and gets none |
| `FeatureMeaning.AddedControl` | custom_components/my_lg/local_control_confirmed_features.py:368-391 | an added control has one option for each row in order: on and off for a switch, a press for a button, the row's label otherwise, each with its request and what it reports |
| `FeatureMeaning.ExtendedSwitch` | custom_components/my_lg/local_control_confirmed_features.py:232-235 | an extended switch offers off and on, off first, as far as it had them or gets them; each reports its own truth, an old one under its old name |
| `FeatureMeaning.LabelIsOfLast` | custom_components/my_lg/local_control_confirmed_features.py:233-235 | the old name of a request is that of the last option that sends it, and there is one exactly if an option does |
| `FeatureMeaning.ExtendedEnum` | custom_components/my_lg/local_control_confirmed_features.py:255-257 | an extended select keeps its options and gets one for each row after them |
| `FeatureMeaning.ExtendedNumbers` | custom_components/my_lg/local_control_confirmed_features.py:271-298 | an extended numeric control holds exactly the old and the new numbers in order, each sending and reporting itself, and named by the source's rules; it stays a number control if and only if it was one, nothing is labelled and all steps are equal |
| `FeatureMeaning.ExtendedOperationMode` | custom_components/my_lg/local_control_confirmed_features.py:332-345 | the extended operation mode keeps its options and gets one for each row it did not have |
| `FeatureAcceptance.SwitchAcceptedIff` | custom_components/my_lg/local_control_confirmed_features.py:222-231 | a switch is extended if and only if every row asks for off or on, which it does not have, and reports the same |
| `FeatureAcceptance.EnumAcceptedIff` | custom_components/my_lg/local_control_confirmed_features.py:245-254 | a select if and only if every row has a value, a label and a report that is no fraction, and all are new as Python compares them |
| `FeatureAcceptance.NumbersAcceptedIff` | custom_components/my_lg/local_control_confirmed_features.py:266-281 | a numeric control if and only if the values are new natural numbers in canonical spelling, the old requests integers, and labels, where given, name exactly the old and new numbers, all differently, and rename an old option only if that is declared |
| `FeatureAcceptance.LabelsOfAccepted` | custom_components/my_lg/local_control_confirmed_features.py:272-281 | so the labels name exactly the numbers the control then has, all differently |
| `FeatureAcceptance.OperationModeAcceptedIff` | custom_components/my_lg/local_control_confirmed_features.py:310-339 | the operation mode if and only if the rows ask for every value it has, each once, report old values as before and label new ones anew |
| `FeatureBranches.ExtensionKeepsAgreement` | custom_components/my_lg/local_control_confirmed_features.py:223-353 | a binding allowed exactly the descriptor's values is allowed exactly the extended ones; in the operation-mode branch if and only if those values had no duplicate |
| `FeatureBranches.ScopesStayRestrictive` | custom_components/my_lg/local_control_confirmed_features.py:223-309 | of the old values a scope withheld, the boolean, enum and numeric branches grant none, except that the numeric branch grants a number the scope holds in another spelling (if and only if) |
| `FeatureBranches.OperationModeWithholdsNothing` | custom_components/my_lg/local_control_confirmed_features.py:310-354 | the operation-mode branch grants every old value to every selected binding |
| `FeatureBranches.OperationModeWidensAScope` | custom_components/my_lg/local_control_confirmed_features.py:348-353 | so it widens a scope that withheld one |
| `FeatureBranches.NumberGridIsExact` | custom_components/my_lg/local_control_confirmed_features.py:282-300 | a control left as a number has a minimum, maximum and step whose grid is exactly the supported numbers |
| `ConfirmedOverlay.AgreementSurvives` | custom_components/my_lg/local_control_confirmed_features.py:188-400 | over any feature list with distinct targets, exact scopes stay exact and added controls are exact |
| `ConfirmedOverlay.WithheldStaysWithheld` | custom_components/my_lg/local_control_confirmed_features.py:188-400 | over any such list an old value a scope withheld is granted if and only if a feature extends the control as a number and the scope holds the same number in another spelling, the humidifier's operation mode excepted |
| `ControlTables.TablesStayIndexed` | custom_components/my_lg/local_control_confirmed_features.py:199-400 | over any such list the descriptor list and the per-model index agree, in order |
| `ControlTables.ExtensionKeepsIndexExactly` | custom_components/my_lg/local_control_confirmed_features.py:236-400 | an extension keeps them in agreement if and only if no feature added the extended control |
| `SplitTables.TablesAgreeIff` | custom_components/my_lg/local_control_confirmed_features.py:199-400 | after any list of features, distinct targets or not, list and index agree if and only if no feature extended, with a new value, a control that an earlier one added |
| `SplitTables.TwoFeaturesSplitTheTables` | custom_components/my_lg/local_control_confirmed_features.py:199-400 | two features for which they do not |
| `ControlTables.AutomaticScopesAuthorizeExactly` | custom_components/my_lg/local_control_contract.py:1095-1334 | automatic scoping followed by the overlay authorizes, for every binding, exactly what every descriptor admits: its exact values, or the canonical strings of its parameter form, a draft none |
| `EnergyLedger.CumulativeEnergyShadowProvider.Ingest` | custom_components/my_lg/local_energy_provider.py:227-346 | a publication is adopted exactly if the history with it is a consistent one; a refused one leaves the ledger unchanged |
| `EnergyLedger.CumulativeEnergyShadowProvider.SetTransportReady` | custom_components/my_lg/local_energy_provider.py:184-192 | losing the transport makes every field unavailable and touches nothing else; regaining it revives none |
| `EnergyLedger.CumulativeEnergyShadowProvider.RejectCurrent` | custom_components/my_lg/local_energy_provider.py:201-205 | a rejection makes every field unavailable and touches nothing else |
| `EnergyLedger.GenerationsNeverRegress` | custom_components/my_lg/local_energy_provider.py:270-346 | over any accepted history the binding generation never regresses, nor the others within one binding |
| `EnergyLedger.SegmentsAreContiguous` | custom_components/my_lg/local_energy_provider.py:270-346 | publications of one binding and baseline are contiguous and their totals never decrease |
| `EnergyLedger.SameGenerationSameTotals` | custom_components/my_lg/local_energy_provider.py:270-346 | equal binding, baseline and counted generation mean equal totals, however far apart |
| `EnergyLedger.LedgerIff` | custom_components/my_lg/local_energy_provider.py:227-346 | comparing each publication with its predecessor admits exactly the histories in which each is consistent in itself and, adjacent or not, goes back in no generation and in no total of its segment |
| `TokenCache.FeatureDatabaseTokenCache.Read` | custom_components/my_lg/feature_database.py:208-238 | for any commits, file replacements and failing calls in between, a returned token is one the uncached reader returns at some instant of the call; with no failing call there is one |
| `TokenCache.FeatureDatabaseTokenCache.Check` | custom_components/my_lg/feature_database.py:219-238 | a cached token is answered exactly while file and version stand and it was checked less than a minute ago; a new one is kept only if nothing moved around the read |
| `TokenCache.FeatureDatabaseTokenCache.Close` | custom_components/my_lg/feature_database.py:247-251 | a closed cache has no connection and answers no more |
| `TokenCache.DuringOneCall` | custom_components/my_lg/feature_database.py:208-238 | what one call may rely on: commits only grow and a replaced file never returns |

## Left out

- Home Assistant entities and platforms, configuration, translations, services, diagnostics: plumbing around the modelled core.
- HTTP, paho, SQLite and the vendor clients: their answers are inputs.
- The providers behind the subscriber: whether they accept a publication is an input; what they do with it is not modelled, except for the energy ledger.
- Withdrawing a retained shadow field: in the runs of reports a field, once reported, stays reported.
- Setting up and removing the provider of a device: in the runs it is there throughout.  A cloud write for a device without one fences from no reports, keeping only what overlay and earlier fence say.
- Two refreshes of one device at the same time: the coordinator's owner does not start one while another is running.
- The presence-expiry timer of the subscriber, and the asynchronous import inside its start.
- A callback thread of a stopped client outliving the stop is modelled; two network threads writing the generation at the same instant are not.
- TokenCache.FeatureDatabaseTokenCache.Read: the path is fixed; the path component of the cached identity is not modelled.
- RateLimiter.GlobalRateLimiter.Acquire: one call at a time, as its lock ensures; waiting for the lock is not modelled.
- DeepMerge.DeepMergeInto: dictionaries are values, so sharing of nested objects between base and delta (which the source prevents by copying) is not expressed.
- DeviceIdentity.ResolveWideqDevices: case folding of names is an arbitrary function.
- TargetGrid.AdmittedIff: quotient and tolerance are exact; binary rounding of floats is not modelled.
- TargetGrid.ExactUpToIff: likewise; at the threshold itself (a step of one degree, nine decimals) float rounding makes the source stricter.
- TargetGrid.AdmittedOffGrid: likewise; from about the sixteenth decimal on the target is no float, and the source refuses its string.
- CompositeDomain.RecognizerIsPrinterImage: numbers are exact decimals; binary rounding of floats is not modelled.
- ClimateFrame.SameSpelling: targets are whole half degrees; other and non-finite explicit targets are not modelled.
- TupleFence.CloudFence: an overlay that expired and was noticed before the cloud write is no longer known to the router, and its time is not part of the fence.
- ConfirmedFeatures.AugmentConfirmedFeatures: JSON type checks of feature rows are left to the types; the parameter schemas of the option modules are a set of allowed triples; entity keys, Korean labels and state semantics of descriptors are not carried.
- FeatureBranches.NumberGridIsExact: integers are read from ASCII digits with an optional minus sign; int() also takes spaces, signs, underscores and other digits.
- ControlTables.AutomaticScopesAuthorizeExactly: which strings are canonical for a parameter pattern or schema is an arbitrary predicate on the descriptor; explicit scope documents are not modelled.
- MqttSubscriber.LocalPilotMqttSubscriber.Start: the asynchronous import of the client library and the cleanup of a client whose setup failed are outside the step.
- EnergyLedger.CumulativeEnergyShadowProvider.Ingest: the envelope, pin and transport checks of a publication are one flag.
- Swing flags, power-off and other single-value commands appear in the command path only, as one exact value without composition.
- Listeners, notifications, refusal logging and Styler drafts: independent of the state modelled here.
- JSON and SHA-256 pins of the bundled contracts, the live mirrors of the appliance feature maps, night-mode transactions, circuit breaker and option validators: fixed literals or near-direct readings of one function.
