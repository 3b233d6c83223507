# A Dafny model of the provisioning engine

This project models, in Dafny, the parts of the repository that carry its promises, and proves those
promises. `dafny verify dfyconfig.toml` checks all of it.

## What is modelled

**An apply across devices** (`Device`, `DeviceRuns`, `Verbs`, `NetworkModel`, `Provision`). A device is a
record of its flag files, its config against the snapshot, and the processes at work on it. One step of one
process is one `Action`: an agent verb is one step, but `disarm` sets its flag, ends the sleep, settles, and
looks again, and the watchdog tests `confirmed` and marks `restoring` in two steps, with anything between.
Accidents are steps too: a watchdog killed asleep, the power going, a verb whose answer was lost going on
alone. The coordinator's phases are methods on a class of devices that all go on by themselves between calls;
every call may fail to arrive or lose its answer. Steps have times: the watchdog marks `restoring` within its
gap of the test, and `settle` gives up after five seconds. `Provision.RunNetwork` puts the phases together:
all or nothing; `Provision.UndoneRunGoesBack` says what undoing comes to, once every watchdog has ended.

**The UCI engine** (`Uci`, `UciStaging`, `UciWipe`, `UciRefinement`, `UciDevice`, `UciVerify`, `UciPasses`, and
`UciText`, `UciExport`, `Text`, `Records`, `RecordStream`, `AgentReader`, `UciReplay`). What `uci` does to a config, one
operation at a time; the wipe and the declaration as operations; configsAfter as the specification they
refine, exactly when; the check before the commit, exact, with what it cannot see; config files, the agent's
record stream and its batches as text that reads back, and the agent's own reader of a stream cut short.

**The plan language** (`When`, `WhenLaws`, `Releases`, `ReleaseLaws`, `Pushdown`, `Condition`, `ConditionWords`, `ConditionParser`,
`ConditionSpelling`, `ConditionPrint`, `ConditionRoundTrip`, `ConditionExact`). Condition trees and their value, overrides pushed down into section conditions, the
tokenizer, the parser over one shared position, the printer, and the round trip between them.

**Merging, locking, allocation, depth, review** (`IntentMerge`, `MergeLaws`, `MergeItems`, `MergeConflicts`, `Lock`, `Ports`, `PortsLaws`,
`FreePorts`, `FreePortsLaws`, `LinesLaws`, `MeshOrder`, `MeshLaws`, `ReviewLines`, `Renames`, `RenameLaws`, `ReviewDiff`, `PlanItems`,
`PlanLaws`). `ReviewDiff`
joins the review's parts: a device's configs as lines, renamed, and what changes.

**Arithmetic** (`Arithmetic`, `Wireguard`, `Base64`, `Sha256`, `Sha256Known`). X25519 by section 5 of RFC 7748, base64, and
SHA-256 by sections 4.1.2, 5.1.1 and 6.2.2 of FIPS 180-4, each loop against a plain definition; SHA-256's, against the
digest published for "abc".

## What turned out to hold only under a condition

Each of these is stated as the code has it, with a concrete run or input, and with the exact condition where
there is one.

- `ONC_DISARMED` means what it says in every run just when the watchdog goes from its test of `confirmed` to
  its mark in less than the five seconds `settle` waits (`DeviceRuns.EvidenceNeedsAPromptMark`).
- `ONC_FIRED` can be said of a device that keeps the change: its watchdog was killed between a disarm's flag
  and its look (`DeviceRuns.FiredYetKept`). A restart after it leaves the snapshot's config and files just
  when the boot-time copy fit on flash (`DeviceRuns.RestartNeedsTheCopy`).
- A rollback is whole just when no `prepare` or `stage` is still at work on packages or files as it comes
  (`DeviceRuns.WholeUnlessToiling`).
- A run undone goes back everywhere if no watchdog is killed since the call that told its device to roll back was
  sent, and a dead one was told (`Provision.UndoneRunGoesBack`); a dead one not told leaves its device as it is
  (`Provision.UntoldDeadStays`).
- Staging comes to configsAfter just when every declared section agrees with the kept one of its name: of a
  kept type, of the same type, and with no option declared empty that the kept one has
  (`UciRefinement.StagingRefinesReview`). The check before the commit does not see the last two
  (`UciPasses.PassesUnreviewed`, `UciPasses.EmptiedPasses`, `UciPasses.RetypedPasses`).
- A config file reads back as written just when no list is empty (`UciExport.RoundTripIsExact`).
- A stage is refused, as it is encoded, just when a value holds a carriage return and no line break
  (`UciReplay.StreamReplays`).
- The agent takes a stream cut short for a whole one just when it is cut after an `end` that starts a line;
  so every cut before the closing line is refused just when no body has a line that starts with `end`
  (`AgentReader.CutRefusedIsExact`). Otherwise it is half acted on and answered as done
  (`AgentReader.CutInBody`, `AgentReader.HalfWritten`); and with only its last line break gone, a last record
  without a body is dropped (`AgentReader.LastBreakLost`).
- A condition prints and reads back just when no release it compares with holds a quote or a backslash
  (`ConditionExact.RoundTripIsExact`).
- The lock is exclusive just when only a crashed holder is judged gone, and no process dies or outlasts its limit
  within a takeover (`Lock.ExclusionIsExact`). The verdict `withLock` gives on a lock that is not there breaks the
  first (`Lock.AbsentVerdictBreaksIt`), and so does its verdict by age on work that takes longer
  (`Lock.LiveVerdictBreaksIt`).
- A release candidate is older than its release just when its number is below 1000
  (`Releases.CandidateBefore`).
- A line's VLAN written 0 on a switch port is no line there (`PortsLaws.ReferencesResolve`).
- A port taken as free by one bridge is another device's too just when that one names it and is no bridge with
  a list (`FreePortsLaws.OneBridgeAPort`).
- On the switch, a port is free just when it carries no line and no word of a VLAN's list comes to its bare
  number (`FreePortsLaws.FreeOnSwitch`). So one listed with a flag other than `t` is free all the same
  (`FreePortsLaws.FlaggedEntryLeavesFree`), and one named in an option that is a single word, and that then
  stands untagged in two VLANs (`FreePortsLaws.WordOptionLeavesFree`, `FreePortsLaws.FreeListedWhere`).
- A value shows in a review as no other items do just when it holds none, or one in which no quote, space, quote
  stand together; any list of two or more shows as one item does (`ReviewLines.ShowsAloneIsExact`).

## Assumptions

The snapshot's copy succeeds. A watchdog does not die once it has marked `restoring` (killed before, or while it stands down, it may be); its swap of the config
and the revert after it are one step, and so is one look of `disarm` at the flags. Clocks run at one rate and
do not jump; a device's own clock counts whole seconds; `settle` gives up five seconds after it begins, no
sooner. A session, a package manager, a service, a hook, what
`uci` reads back: each is a choice made freely, so what is proved holds whatever they answer. In the merge,
the conditions and the settings, JSON objects are finite maps. Words of SHA-256 are 32-bit; the key functions
count in whole numbers, as BigInt does. Section names, types and options are those uci takes, where a lemma
asks for plain ones.

## Model

| member | source | states |
|---|---|---|
| `Device.StepKeepsInv` | src/agent/script.ts:449-646 | Every step of every process on a device (watchdog, step verbs, any number of disarms at work, deaths, restarts) keeps what the flag files, the commit marker, the boot copy and the disarms rest on |
| `Device.StepIsProgress` | src/agent/script.ts:495-573 | No such step, without a verb sent, makes an armed device unarmed, a stood-down one restorable, an untouched one changed, or a watchdog fire before its time |
| `Device.ProgressComposes` | src/agent/script.ts:495-573 | What one step keeps, any number of steps keep |
| `Device.ArrivalKeepsInv` | src/agent/script.ts:594-610 | A disarm that arrives, or arrives again after a lost answer, keeps the invariant |
| `DeviceRuns.RunKeeps` | src/agent/script.ts:495-646 | The invariant holds in every state of every run, and what an earlier state settled a later one keeps |
| `DeviceRuns.DisarmOnEvidence` | src/agent/script.ts:594-610 | Once a disarm said ONC_DISARMED, no later state of the run restores anything: for every interleaving with the watchdog, other disarms, deaths and restarts, if the watchdog marks within five seconds of its test |
| `DeviceRuns.SlowMarkBreaksEvidence` | src/agent/script.ts:505-510 | A timed run, from any such device whose mark may take five seconds or more, in which a disarm says ONC_DISARMED and the watchdog restores afterwards |
| `DeviceRuns.EvidenceNeedsAPromptMark` | src/agent/script.ts:594-610 | The evidence holds in every run just when the longest the watchdog takes from its test of `confirmed` to its mark is less than the 5000 ms that `settle` waits |
| `DeviceRuns.KeptForGood` | src/agent/script.ts:594-610 | What is kept is kept for good: no run changes it or restores it |
| `DeviceRuns.NothingComes` | src/agent/script.ts:449-537 | Where no rollback is to come, no run marks or does one |
| `DeviceRuns.FiredGoesBack` | src/agent/script.ts:598-610 | After ONC_FIRED, short of a restart, the watchdog restores, has restored, or was already dead; once it has restored, the device is on its whole snapshot |
| `DeviceRuns.FiredThenRestarted` | src/agent/script.ts:85-111 | What a restart after ONC_FIRED leaves: the snapshot's config and files if the restore was done or the boot-time copy there, else what the device held; and the copy is there if it ever was, unless a disarm said the device was kept |
| `DeviceRuns.RestartNeedsTheCopy` | src/agent/script.ts:85-111 | A restart after ONC_FIRED leaves the snapshot's config and files in every run just when the boot-time copy fit |
| `DeviceRuns.FiredYetKept` | src/agent/script.ts:587-610 | A run in which a disarm says ONC_FIRED and the change stays for good: the watchdog killed between the flag and the look |
| `DeviceRuns.UndoneDeviceEndsOnSnapshot` | src/agent/script.ts:512-537 | A device left going back, once its watchdog has ended, holds its snapshot; or a prepare or stage changed something after the restore, or it restarted, or its watchdog was dead or killed since |
| `DeviceRuns.WholeUnlessToiling` | src/agent/script.ts:431-447 | A rollback that comes now is whole in every run, just when no prepare or stage is at work that changes packages or files |
| `DeviceRuns.RestoredUnderToil` | src/agent/script.ts:220-309 | A run in which a step verb still at work changes the device after its restore |
| `DeviceRuns.WatchdogEnds` | src/agent/script.ts:495-573 | Each of the watchdog's own steps brings it nearer its end, and nothing else takes it further from it |
| `DeviceRuns.EndedChangesNothing` | src/agent/script.ts:495-573 | On a device whose watchdog has ended and whose step verb is done, only a restart changes what a rollback covers |
| `Verbs.ArmKeeps` | src/agent/script.ts:449-493 | Arming keeps the invariant, and leaves a watchdog that fires no earlier than the coordinator counts, sleeps that long once asleep, and wrote so to the second |
| `Verbs.BeginWorkKeeps` | src/agent/script.ts:236-355 | prepare and stage begun on an uncommitted device, and finalise on one staged, keep the invariant and the watchdog's standing |
| `Verbs.RevertKeeps` | src/agent/script.ts:160-164 | A revert disarms nothing, commits nothing and keeps the invariant |
| `Verbs.WakeKeeps` | src/agent/script.ts:638-646 | rollback-now disarms nothing; it answers on every device asleep, restoring or dead, and leaves each restoring from then on: awake, restoring already, or a dead watchdog started again with no sleep |
| `Verbs.WakesOrUp` | src/agent/script.ts:638-646 | One it does not answer on is past its sleep already |
| `Verbs.DroppedKeeps` | src/agent/script.ts:624-634 | drop leaves an untouched device untouched, with no agent and no rollback to come |
| `Verbs.FinishKeeps` | src/agent/script.ts:662-665 | done keeps the invariant and takes nothing from a device that keeps the change |
| `NetworkModel.SendKeepsOrder` | src/apply/provisionNetwork.ts:96-127 | A call sent under its rule keeps the log free of early disarms: disarm and drop go only to devices never sent a commit, or after every watchdog was found asleep in time |
| `NetworkModel.SentInWindow` | src/apply/configure.ts:127-138 | A commit sent with the window kept leaves, before the earliest deadline, the minimum for every device committed so far and this one |
| `NetworkModel.Network.Work` | src/apply/recover.ts:116-126 | A step verb's call, which may never arrive, lose its answer or go on alone: the device's guard is kept, nothing but a commit commits, an answer means it is over, and yes that it was done |
| `NetworkModel.Network.DisarmCall` | src/agent/script.ts:594-610 | A disarm's call: "disarmed" means the committed change is kept for good, "fired" that it goes back, no answer that either may be |
| `NetworkModel.Network.AsleepCall` | src/agent/script.ts:615-622 | asleep, counted on the coordinator's clock from before the call, never says a watchdog fires later than it does, up to the second its clock is cut to; fired, that its rollback comes unless it was killed since; kept, that it is dead, or gone with a restart since |
| `NetworkModel.Network.ArmCall` | src/apply/arm.ts:100-116 | Arming's call: armed, or perhaps, with the deadline counted from before it was sent |
| `NetworkModel.Network.WakeCall` | src/agent/script.ts:638-646 | rollback-now's call: answered, the rollback comes (woken, restarted or already under way) unless the watchdog was killed since, counted from no earlier than the call; lost, the device still has it |
| `NetworkModel.Network.DropCall` | src/agent/script.ts:624-634 | drop's call, to devices unchanged only: gone means that no rollback is to come there and the agent is off |
| `Provision.ReconnectUntil` | src/apply/reconnect.ts:43-73 | A session is returned only before the deadline, and trying changes no device |
| `Provision.RollBackNow` | src/apply/recover.ts:79-97 | Answered, over a session or a new one, the rollback comes unless the watchdog was killed since that call was sent; not woken, it was called again over a new session, or for fifteen seconds none came, and its own deadline has passed; nothing else changes on any device |
| `Provision.DisarmLive` | src/apply/recover.ts:134-139 | A disarm asked again after a lost answer still means what its answer says; unanswered, it was asked again, or for fifteen seconds no session came |
| `Provision.Abort` | src/apply/provisionNetwork.ts:96-127 | Undoing a run: each committed or left-armed device answered a call, at a place in the log, as it was told to roll back, and does unless killed since that was sent, or its deadline has passed; each unchanged one is stood down, found firing, or its deadline has passed |
| `Provision.DiscardRollback` | src/apply/arm.ts:17-25 | A rollback taken off, over a new session if need be: gone, nothing of it is to come and the agent is off; not gone, it was asked again, or for fifteen seconds no session came |
| `Provision.ArmAll` | src/apply/provisionNetwork.ts:207-238 | Just when every device was begun, fetched for and armed: each armed with its deadline no later than its watchdog fires; or every device unchanged and none left armed: no rollback to come there that has not begun, or its deadline has passed |
| `Provision.ConfigureDevice` | src/apply/configure.ts:31-117 | Configured and staged whole, just when every step was answered, and with yes; or nothing committed, and what its failure left there is said: armed just when packages or files change there or it did not answer, a run_after just as it told |
| `Provision.EnsureTimeToConfirm` | src/apply/configure.ts:127-138 | Passes just with the minimum window times the devices to confirm left before the earliest deadline |
| `Provision.CommitDevice` | src/apply/commit.ts:9-35 | Fails just when the commit was answered with no; a dropped link is no failure, and a failed commit counts as committed: the device's rollback stays either way |
| `Provision.ConfigureAll` | src/apply/provisionNetwork.ts:241-267 | Every device committed in its window, each still waiting, and no step of any refused or unanswered; or the run undone: each device unchanged, or answered as it was told to roll back, or waited for to the deadline; ended "failed" just when no commit was sent, no package or file touched, no run_after started and every device asked answered, and then each is untouched; else "rolled-back" |
| `Provision.ConfirmDevice` | src/apply/confirm.ts:32-58 | Confirmed only if reached, and asked, six seconds before the deadline or sooner, and its commit seen whole; out of reach only once that time is near |
| `Provision.ConfirmAll` | src/apply/provisionNetwork.ts:270-299 | All confirmed, none disarmed; or the run undone, the one out of reach at its own deadline |
| `Provision.ReadyToDisarm` | src/apply/provisionNetwork.ts:304-346 | Ready means every watchdog, but the dead and those gone with a restart, has more than 19 s left (20 less the second lost to whole-second clocks), all at one moment; not ready, that the run is undone, the device that fired by itself |
| `Provision.DisarmAll` | src/apply/provisionNetwork.ts:354-366 | Each device is counted once: kept for good, going back, or unreached and then one or the other |
| `Provision.RunToReady` | src/apply/provisionNetwork.ts:388-419 | Up to the disarming: every device awaits it confirmed, or the run is undone and ended "failed" or "rolled-back" by what was changed |
| `Provision.RunNetwork` | src/apply/provisionNetwork.ts:377-445 | All or nothing, over every run: the disarming begins only if no device refused a step or left one unanswered; ends ok with every device on the new config and no restore to come; stopped before the disarming, "failed" just when nothing was changed anywhere, else "rolled-back", each device unchanged, or answered as it was told to roll back, or waited for to the deadline; else each is kept for good, goes back or is unreached, counted once, and the end is by how many are kept; and every commit was sent in its window |
| `Provision.UndoneRunGoesBack` | src/apply/provisionNetwork.ts:92-127 | A run so ended: every run on of a device with no disarm, whose watchdog has ended, leaves it on its snapshot, or changed late by a prepare or stage, or restarted; if no watchdog of a changed device was killed since the call that told it was sent, and a dead one was told |
| `Provision.UntoldDeadStays` | src/agent/script.ts:585-587 | A dead watchdog not told leaves its device on what it holds, short of a restart |
| `UciStaging.WipeLeavesKept` | src/engine/uci.ts:159-172 | The wipe's deletes are never refused and leave exactly the kept sections: named ones deleted by name, each `@type[0]` the section it is for |
| `UciWipe.ScalarsSet` | src/engine/uci.ts:92-94 | A declared text or number is set as it is, a flag as 1 or 0 |
| `UciWipe.WipeUnderType` | src/engine/uci.ts:149-172 | Under one entry for a type, a wipe from any sections leaves exactly those of that type |
| `UciWipe.WipeUnderWhole` | src/engine/uci.ts:149-172 | Under one for the whole config, all of them |
| `UciWipe.WipeUnderNone` | src/engine/uci.ts:149-172 | Under entries for other configs, or none, nothing |
| `UciWipe.WipeUnderBoth` | src/engine/uci.ts:149-172 | Under entries together, exactly what either leaves alone |
| `UciWipe.DeviceWipedButType` | src/engine/uci.ts:159-172 | A whole device wiped but for one type of one config holds that type, and nothing else |
| `UciStaging.OptionsSet` | src/engine/getUciCommands.ts:46-60 | A section's options set one by one: lists cleared first, empty values deleting, come to the declared options over the old |
| `UciStaging.DeclsStaged` | src/engine/getUciCommands.ts:40-66 | The declaring operations, over kept sections, are never refused and come to a closed form |
| `UciStaging.StagingComesTo` | src/engine/uci.ts:159-172 | Wipe then declare, from any sections with distinct names |
| `UciRefinement.StagingRefinesReview` | src/applyDiff.ts:120-145 | Staging one config leaves exactly what configsAfter says, just when each declared section agrees with the kept one of its name (kept type, same type, no option declared empty that the kept one has) |
| `UciDevice.RunByConfig` | src/engine/getUciCommands.ts:63-66 | Operations on many configs, run together, act on each as its own alone |
| `UciDevice.AfterKeys` | src/applyDiff.ts:120-145 | configsAfter has the device's configs and no others, where every config declared is there |
| `UciDevice.ApplyRefinesReview` | src/applyDiff.ts:120-145 | The whole device: the operations run, committing changedConfigs by name commits everything staged, and what is committed is configsAfter just when all agree |
| `UciVerify.OrderOnce` | src/engine/uci.ts:222-287 | Comparing sections by one joined text misses nothing: equal texts, equal names and types in order, whatever commas or equals signs a type holds |
| `UciVerify.VerifyIsExact` | src/engine/uci.ts:232-287 | No problem is found just when every config holds exactly the declared sections it owns, in order, and each merged section, found by name, holds its declared options |
| `UciPasses.ReviewPassesVerify` | src/engine/uci.ts:232-287 | From readable sections and declarations, what configsAfter says the device holds always passes verifyConfigs |
| `UciPasses.ApplyPassesVerify` | src/engine/uci.ts:232-287 | From the same, what is staged passes too, unless a section of a wiped type takes a kept one's name; and differs from configsAfter just when something disagrees |
| `UciPasses.PassesUnreviewed` | src/engine/uci.ts:202-220 | Whatever section a device keeps, redeclared with an option left empty that it has, or as another type: the operations run, the check finds nothing, and what is staged is not what was reviewed |
| `UciPasses.EmptiedPasses` | src/engine/uci.ts:202-220 | An input of the first kind: a gateway declared empty |
| `UciPasses.RetypedPasses` | src/engine/uci.ts:202-220 | An input of the second: a kept domain redeclared as a host |
| `UciText.Lines` | src/engine/uci.ts:28-58 | The tokenizer's loop is the character-by-character lexer |
| `UciText.ScanQuoted` | src/shell.ts:9-10 | A quoted value reads as itself, whatever quotes, backslashes, newlines it holds |
| `UciExport.ParseUciExport` | src/engine/uci.ts:61-90 | The parser's loop is the line-by-line reading |
| `UciExport.ReadsBack` | src/engine/uci.ts:131-143 | A file written for any sections reads back as those sections, lists without items aside |
| `UciExport.RoundTripIsExact` | src/engine/uci.ts:131-143 | It reads back as written just when no list is empty |
| `Records.DecodeRecords` | src/agent/records.ts:96-152 | The decoder's loop is the record-by-record reading |
| `Records.Received` | src/agent/records.ts:52-90 | Each record that can be sent is received whole, and nothing of what follows with it |
| `RecordStream.SentIsReceived` | src/agent/records.ts:93-152 | Records are refused just when a field is no word or no line; otherwise they are received as sent (a file gains its last line break), even with bodies of lines that read `end` |
| `RecordStream.CutShortIsRefused` | src/agent/records.ts:96-98 | A stream cut short anywhere is refused by decodeRecords, or read in full: never in part |
| `AgentReader.EachRecord` | src/agent/script.ts:193-209 | The agent's loop, by line numbers and counts, is the record-by-record reading of the lines that are there |
| `AgentReader.WholeFed` | src/agent/script.ts:179-209 | A stream sent whole is taken, and acted on record by record with every body whole |
| `AgentReader.CutTakenWhere` | src/agent/script.ts:179-183 | The agent takes a stream cut short just when it is cut right after an `end` that starts a line, the closing one or one of a body |
| `AgentReader.CutActsOn` | src/agent/script.ts:193-209 | And acts on the records before the cut, and of the one it is in on its body as far as it came, saying that all went well |
| `AgentReader.CutRefusedIsExact` | src/agent/script.ts:179-183 | Every cut before the closing line's end is refused just when no body has a line that starts with `end` |
| `AgentReader.CutInBody` | src/agent/script.ts:179-209 | Each such line is where the stream can be cut and is half acted on |
| `AgentReader.HalfWritten` | src/agent/script.ts:179-209 | A file of three lines, the second `end`: cut there, it is written without its third |
| `AgentReader.LastBreakLost` | src/agent/script.ts:179-209 | With only its last line break gone, a stream is taken, and its last record acted on just when it has a body |
| `UciReplay.UciRecords` | src/getDeviceScript.ts:67-77 | Operations in order, each run of one-line ones one batch: none empty, no two in a row |
| `UciReplay.GroupedOnce` | src/getDeviceScript.ts:67-77 | There is only one such grouping |
| `UciReplay.StreamReplays` | src/getDeviceScript.ts:59-77 | What the agent replays is exactly the operations meant, in order; the stream is refused just when a value holds a carriage return and no line break |
| `When.JoinedKeepsValue` | src/plan/when.ts:60-65 | Joining, with its flattening and absorbing, keeps the value on every device |
| `When.JoinedShaped` | src/plan/when.ts:76-79 | Joining shaped trees makes a shaped one |
| `WhenLaws.OrderMeans` | src/plan/when.ts:113-119 | On a device whose fact is a release: `<` just when its own is the earlier, `>` the later, one of `<` and `>=`, of `<=` and `>`, the loose ones taking in the equal |
| `WhenLaws.NoOrder` | src/plan/when.ts:113-119 | What is no release matches none of the four |
| `WhenLaws.OrderTurns` | src/plan/when.ts:113-119 | The four turn with the sides swapped |
| `WhenLaws.OnReleases` | src/plan/when.ts:113-119 | Compared as releases are: by which is older |
| `WhenLaws.IsMeans` | src/plan/when.ts:121-132 | Equality is by text, with one of several, and never with what is absent |
| `WhenLaws.IsVariants` | src/plan/when.ts:121-132 | `!=` is not `==`, and IN is `==` to one of them |
| `WhenLaws.JoinsMean` | src/plan/when.ts:103-112 | One condition more is asked too, or may be chosen; nothing asked holds, nothing to choose from does not |
| `Releases.CompareReleases` | src/release.ts:40-48 | The loop compares part by part |
| `Releases.ComparedIs` | src/release.ts:40-48 | Older, newer or the same, and just one: by the first number that differs |
| `Releases.ComparedOrders` | src/release.ts:40-48 | It turns with the sides swapped, and older than older is older |
| `Releases.NumbersDecide` | src/release.ts:26-48 | Numbers decide, as numbers: 25.12.5 before 25.12.10 |
| `Releases.CandidateBefore` | src/release.ts:26-37 | A candidate is older than its release just when its number is below 1000 |
| `Releases.ZerosFollow` | src/release.ts:35-36 | 25.12 is 25.12.0 |
| `ReleaseLaws.SuffixIs` | src/release.ts:25-37 | Numbers with a suffix: a snapshot after all of its line, a candidate a thousand before its release, in any case; no release with any other suffix, or one broken over lines |
| `Releases.SnapshotAfterLine` | src/release.ts:26-37 | A snapshot is newer than every release and candidate of its line |
| `Releases.SnapshotByLine` | src/release.ts:26-37 | Against another line it stands as the lines do |
| `Releases.SnapshotLast` | src/release.ts:27 | The bare snapshot is newer than every release |
| `Releases.SpacesAside` | src/release.ts:28 | Spaces about a release do not count |
| `Pushdown.PushdownKeepsMeaning` | src/lowLevel/parse.ts:60-86 | On every device and for every type, the compiled sections resolve to the last matching override's list for the type, else the config's own, else (its `.if` false) nothing, in order |
| `Pushdown.OtherTypesEmpty` | src/lowLevel/parse.ts:62-65 | The types left out of the compiled config are ones that come to nothing |
| `Pushdown.SectionApplies` | src/lowLevel/parse.ts:39-53 | A compiled section applies just when what was pushed down and its own condition hold |
| `Pushdown.LastOverrideStands` | src/engine/resolvePlan.ts:22-30 | An option is as the last matching override that sets it has it |
| `Pushdown.OptionStays` | src/engine/resolvePlan.ts:22-30 | No matching override sets it: as the section has it |
| `Pushdown.LastNameStands` | src/engine/resolvePlan.ts:22-30 | A name is the last matching override's that gives one, else the section's |
| `Pushdown.UnlessShaped` | src/lowLevel/parse.ts:69-72 | The conditions pushed down are ones that print and read back |
| `Condition.TakeString` | src/condition.ts:43-54 | The string loop reads up to the closing quote, escapes taken off, or finds none |
| `Condition.Tokenize` | src/condition.ts:30-68 | The tokenizer's loop is the token-by-token reading |
| `ConditionWords.NumberLexes` | src/condition.ts:55-58 | A number, its sign and its fraction are one token, of its text |
| `ConditionWords.NameLexes` | src/condition.ts:59-62 | A name is one token, as far as it goes |
| `ConditionWords.FactsAre` | src/plan/when.ts:34-48 | A condition may ask for any tag, and for twelve names more |
| `ConditionWords.KeywordAnyCase` | src/condition.ts:82-83 | A keyword is read in any mix of cases, and nothing else is read as it |
| `ConditionParser.Parser.ParsePrimary` | src/condition.ts:103-153 | The parser's shared position follows the grammar: a bracket, `*`, or a name and its test |
| `ConditionParser.Parser.ParseBinary` | src/condition.ts:163-174 | Chains, joined one by one, follow the grammar |
| `ConditionParser.Parse` | src/condition.ts:76-181 | The whole parse is the grammar's |
| `ConditionParser.ParsedIsGood` | src/condition.ts:71-181 | Every tree parsed nests no join in one of its kind, has two or more in each, and names only facts |
| `ConditionSpelling.SpellingIsFree` | src/condition.ts:82-182 | A condition reads the same however it is spelt: by symbols or words, keywords in any case, a number or its text quoted |
| `ConditionPrint.QuotedLexes` | src/plan/when.ts:141 | A printed literal is one string token of its value |
| `ConditionRoundTrip.PrintLexes` | src/plan/when.ts:144-165 | A printed condition has exactly the tokens meant |
| `ConditionRoundTrip.PrintParses` | src/plan/when.ts:144-165 | parse(printWhen(t)) = t for every shaped tree of facts whose release values are free of quotes and backslashes |
| `ConditionRoundTrip.ParsePrints` | src/condition.ts:184-190 | What was parsed prints and parses back to itself, with the same exception |
| `ConditionExact.ParseHoldsAll` | src/condition.ts:76-181 | Whatever parses holds all its text's strings and numbers, each once, in order |
| `ConditionExact.NeverRead` | src/condition.ts:43-54 | A value with a quote or a backslash, written between quotes unescaped, is never read as itself, whatever follows |
| `ConditionExact.RoundTripIsExact` | src/plan/when.ts:144-165 | parse(printWhen(t)) = t for a shaped tree of facts just when no release in it holds a quote or a backslash |
| `MergeLaws.ChangesSurvive` | src/intent/merge.ts:50-63 | At every path with no conflict at or above it, what one side left alone is the other side's |
| `MergeConflicts.ConflictIsExact` | src/intent/merge.ts:50-63 | A path, by field and by the item a place holds, is reported just when both sides changed what is there, differently, and it is no three objects nor lists told by item |
| `MergeConflicts.MineStands` | src/intent/merge.ts:50-63 | There mine stands in the merged value, and base, mine and theirs all differ |
| `MergeConflicts.MergedWithin` | src/intent/merge.ts:33-63 | At every path that leads on, the merged value is the three values there, merged |
| `MergeConflicts.OneChangeStands` | src/intent/merge.ts:50-52 | What one side alone changed there, or both alike, stands |
| `MergeItems.IdentityIs` | src/intent/merge.ts:24-30 | Items are told apart by the most telling key every one of them has (an id, a MAC, an SSID, a name, else the plain value), just when no list tells one twice |
| `MergeItems.ByItemIsExact` | src/intent/merge.ts:34-44 | Lists merge by item just when their items are told apart, none is gone on one side and changed on the other, and mine moved none |
| `MergeItems.MergedOrder` | src/intent/merge.ts:45-49 | A merged list stands in their order; what only mine added comes after, in mine's |
| `MergeLaws.MergeIsSymmetric` | src/intent/merge.ts:50-63 | Without lists, a merge that finds no conflict is the same with the sides swapped |
| `MergeLaws.ListMergesByItem` | src/intent/merge.ts:33-48 | Lists merged item by item: no key twice, and for every key exactly the item there should be |
| `MergeLaws.ListKeptWhole` | src/intent/merge.ts:33-42 | The whole list is mine, and a conflict, just when items cannot be told apart, a removal meets a change, or mine moved them |
| `MergeLaws.MergeKeepsKey` | src/intent/merge.ts:24-29 | An item merged is still the item it was |
| `Lock.StepKeepsInv` | src/lock.ts:30-56 | Each file-system call of each process keeps who owns what |
| `Lock.MutualExclusion` | src/lock.ts:30-56 | At most one live process has the lock, in every run of any number of processes, so long as only a crashed holder is judged gone, and none dies or outlasts its limit within a takeover |
| `Lock.ExclusionIsExact` | src/lock.ts:30-77 | No run lets two have it just when these four hold: no absent lock judged gone, no live holder judged gone, no death within a takeover, no takeover past its limit |
| `Lock.HolderReleases` | src/lock.ts:54-56 | A holder that gives back finds the token its own |
| `Lock.AbsentVerdictBreaksIt` | src/lock.ts:75-77 | Without the first assumption, a run with two holders: a verdict on a lock given back meanwhile, as withLock gives |
| `Lock.DeathInTakeoverBreaksIt` | src/lock.ts:39-42 | Without the second, another: a process dying within a takeover |
| `Lock.LiveVerdictBreaksIt` | src/lock.ts:45-48 | A live holder judged gone, as by withLock's age where work takes longer: a run with two holders |
| `Lock.SlowTakeoverBreaksIt` | src/lock.ts:39-42 | A live taker past the takeover's limit: another |
| `MeshOrder.DepthIsExact` | src/apply/meshOrder.ts:26-32 | On any table, loops included, a depth is finite just when there is a way of next hops to a direct neighbour, and is its length |
| `MeshLaws.HostIsLast` | src/apply/meshOrder.ts:21 | Of two hosts with one MAC the last counts |
| `MeshLaws.ViewIsLast` | src/apply/meshOrder.ts:26 | A host's table is its last |
| `MeshLaws.ViaIsLast` | src/apply/meshOrder.ts:27 | Of two entries for one node the last counts |
| `MeshLaws.ChainDepth` | src/apply/meshOrder.ts:26-33 | In a chain of hosts, each reached over the link of the one before under another MAC, the k-th is k deep |
| `MeshOrder.HopIsOneLess` | src/apply/meshOrder.ts:26-32 | A node's next hop is exactly one less deep, whatever had been seen |
| `MeshOrder.MeshDepths` | src/apply/meshOrder.ts:10-41 | The least depth over every gateway for each host, and 0 for the cabled ones |
| `MeshOrder.ReachedThroughShallower` | src/apply/meshOrder.ts:33-38 | Where a host's least depth is over a node not next to the gateway, the host it is reached through has a lesser one |
| `Ports.FirstFree` | src/engine/values.ts:9 | Ends, at the lowest number not taken |
| `PortsLaws.LinesApart` | src/engine/ports.ts:82-118 | The switch's lines have VLANs of their own, none a network's, and a port at most one untagged |
| `PortsLaws.ReferencesResolve` | src/engine/ports.ts:119-127 | A reference on the switch is a line just when its VLAN is not written 0 |
| `LinesLaws.TaggedAre` | src/engine/ports.ts:90-93 | A switch port has a tagged line for a VLAN just when a placeholder asks for that VLAN there |
| `LinesLaws.UntaggedAre` | src/engine/ports.ts:103-118 | A switch port has an untagged line just when a placeholder is on it, and none asks for a VLAN there or an interface is on it bare |
| `LinesLaws.UntaggedIsLowest` | src/engine/ports.ts:114-118 | An untagged line's VLAN is at least 2, and every one from 2 up to it is a network's or a line's |
| `LinesLaws.VlanIsItsLine` | src/engine/ports.ts:119-127 | A placeholder with a VLAN is that tagged line |
| `LinesLaws.BareIsUntagged` | src/engine/ports.ts:121-125 | A bare one is the port's untagged line, else its first |
| `LinesLaws.LineIsCpuVlan` | src/engine/ports.ts:119-138 | A line on the switch is on the device the CPU's port has for its VLAN, the one a network on that VLAN would be on |
| `LinesLaws.LineIsListed` | src/engine/ports.ts:150-157 | A line's switch VLAN lists the CPU's number tagged and its port's number, tagged just when the line is |
| `LinesLaws.FreeIsListed` | src/engine/ports.ts:227-229 | A VLAN of the free ports lists the CPU's number tagged and each free port's, tagged just when the placeholder says |
| `PortsLaws.DevicesApart` | src/engine/ports.ts:68-80 | No two interfaces on lines, the first of them named, share a device, if the board's names are plain |
| `FreePortsLaws.LinePortNotFree` | src/engine/ports.ts:183-203 | An interface's line, its device worked out, leaves its port in no free-port list, on the switch or off it |
| `FreePortsLaws.FreePortsAreFree` | src/engine/ports.ts:128-194 | Where a config is accepted, a port is free for a bridge just when it is no CPU's and not on the switch, no bridge's list has it, and no interface of the config is on it: by its device's name, a VLAN on it, or its line |
| `FreePortsLaws.FreeOnSwitch` | src/engine/ports.ts:195-202 | And free for a switch VLAN just when it is the switch's and no CPU's, no line of the config is on it, and no word of a list-valued option, without the flag `t`, comes to its bare number |
| `FreePortsLaws.OneBridgeAPort` | src/engine/ports.ts:163-216 | And one that a device takes as free is another's too just when that names it and is no bridge with a list; never by taking the free ports twice |
| `FreePortsLaws.FreeListedWhere` | src/engine/ports.ts:195-229 | A free switch port's number stands untagged in a VLAN just when that takes the free ports, or its option is one word for it |
| `FreePortsLaws.FlaggedEntryLeavesFree` | src/engine/ports.ts:195-202 | A port listed with any flag but `t` is among the free ones, and stands in two VLANs |
| `FreePortsLaws.WordOptionLeavesFree` | src/engine/ports.ts:196 | A port named in an option that is one word, as src/plan/rules.ts lets it be, is among the free ones, and stands untagged in two VLANs |
| `Wireguard.RemIsMod` | src/wireguard.ts:11 | The remainder made positive is the least one |
| `Wireguard.Pow` | src/wireguard.ts:12-20 | base to the exponent, modulo 2^255-19 |
| `Wireguard.LittleEndianBack` | src/wireguard.ts:21-22 | fromLE and toLE undo each other |
| `Wireguard.ClampedIs` | src/wireguard.ts:25-31 | Clamping takes off the lowest three bits and the top one, sets the next, and changes no other bit |
| `Wireguard.ScalarRange` | src/wireguard.ts:25-31 | A clamped key is a multiple of 8 from 2^254 up to 2^255, and clamps to itself |
| `Wireguard.StepDoubles` | src/wireguard.ts:45-58 | A step's first point is the first doubled, by the curve's formula |
| `Wireguard.StepAdds` | src/wireguard.ts:45-58 | Its second is the two added, their difference the point asked of |
| `Wireguard.ClimbDeferred` | src/wireguard.ts:39-62 | The loop with swaps put off makes the ladder that swaps and swaps back at each bit, whatever the step |
| `Wireguard.ClimbMultiplies` | src/wireguard.ts:34-62 | Whatever the multiples of a point are, if a step doubles and adds them the ladder makes the one its scalar says, and the next: from the start (1, 0), by each bit in turn, with the swaps undone |
| `Wireguard.LadderCounts` | src/wireguard.ts:34-62 | With a step that counts, exactly the scalar and one more |
| `Wireguard.PrimeIs` | src/wireguard.ts:9 | The prime is 2^255 - 19 |
| `Wireguard.X25519` | src/wireguard.ts:34-63 | 32 bytes below 2^255-19: the ladder's x times its z to the 2^255-21, for the clamped scalar and the u-coordinate without its top bit |
| `Base64.ToBase64` | src/wireguard.ts:68-77 | The loop writes three bytes as four letters, padded |
| `Base64.FromBase64` | src/wireguard.ts:79-95 | The loop reads them back with a 32-bit buffer whose high bits are lost; refused for a letter not in the alphabet |
| `Base64.RoundTrip` | src/wireguard.ts:68-95 | Any bytes, written and read, are the same bytes |
| `Base64.Vectors` | src/wireguard.ts:66-77 | One, two and three bytes as section 10 of RFC 4648 has them, and the alphabet's ends |
| `Sha256.PaddingIsLeast` | src/sshFingerprint.ts:22-28 | The padded message is the least whole number of blocks for message, mark and length, and ends in the bit length modulo 2^64 |
| `Sha256.Pad` | src/sshFingerprint.ts:22-28 | The buffer filled is the padded message |
| `Sha256.Run` | src/sshFingerprint.ts:38-44 | The eight variables shifted round by round are the standard's rounds |
| `Sha256.Sha256Bytes` | src/sshFingerprint.ts:21-51 | The block loop is the standard's hash of the padded message |
| `Sha256Known.AbcDigest` | src/sshFingerprint.ts:21-51 | The digest so defined is, for "abc", the one published with the standard |
| `ReviewLines.ShowsAloneIsExact` | src/deviceState.ts:16 | A value shows as no other items do just when it holds none, or one with no quote, space, quote in it; any two items or more show as one |
| `ReviewLines.ShowIsExact` | src/deviceState.ts:16 | Free of quotes, two values show alike just when they hold the same items |
| `ReviewLines.ShowBlurs` | src/deviceState.ts:16 | With quotes, one item shows as two |
| `ReviewLines.DiffIsExact` | src/applyDiff.ts:193-202 | The changes listed are exactly the lines that differ, and made to the lines before they give the lines after |
| `ReviewLines.SecretsHidden` | src/applyDiff.ts:190-202 | A change says what its line was and is, of a secret one only "(hidden)" |
| `ReviewLines.SecretsStaySecret` | src/applyDiff.ts:190-202 | With other secrets in place of these, changed where these changed, the changes listed are the same |
| `Renames.SectionKeysApart` | src/deviceState.ts:19-26 | No two sections have one key |
| `RenameLaws.LikenessIs` | src/applyDiff.ts:150-154 | Likeness is symmetric, 1 only of equal options, at least a half just when the alike are half of all either has |
| `RenameLaws.CandidateIsExact` | src/applyDiff.ts:163-174 | A pair may be a rename just when the configs hold two such sections: one config and type, half their options alike, the first key gone after, the second not there before |
| `Renames.RenamesMatch` | src/applyDiff.ts:163-179 | Renames are a matching of candidates, and a candidate left out shares an end with one taken that is at least as like |
| `Renames.KeysStayApart` | src/applyDiff.ts:182-188 | No two lines under sections that were there come to one key under the new names |
| `ReviewDiff.LinesHold` | src/deviceState.ts:29-38 | A listing's lines are all its sections' types and options, none lost to another section's |
| `ReviewDiff.LineFrom` | src/deviceState.ts:29-38 | And no others |
| `ReviewDiff.RenamesKeepApart` | src/applyDiff.ts:182-188 | The renames found between two listings send no two of a device's lines to one key |
| `ReviewDiff.ReviewIsExact` | src/applyDiff.ts:239-254 | From what a device holds to what it will: every line stands under one key with what it said, and the changes listed are exactly the lines that then differ, and made to them give the lines of what it will hold |
| `PlanItems.GroupedOnce` | src/applyPlan.ts:128-130 | Grouping loses nothing and doubles nothing |
| `PlanItems.EveryChangeReviewed` | src/applyPlan.ts:219-243 | Every change is in exactly one item, or, one that edits claim, in one for each that does |
| `PlanLaws.ClaimsIs` | src/applyPlan.ts:152-156 | An edit claims a line just when the parts of one's dotted path begin the other's: the line's setting, or its item |
| `PlanLaws.TogetherIsOneCause` | src/applyPlan.ts:219-247 | Two changes are in one item just when they have one cause: one edit that claims both or none that claims either, one fix, one update's label, one device |
## Left out

- Provision.RunNetwork: of a device it could not reach while disarming it says only that its commit was seen whole, or undone since, because its disarm may have arrived with both answers lost; so a run that ends "rolled-back" with every device unreached may leave the new config on some.
- Provision.DisarmAll: likewise of the unreached ones.
- Provision.RollBackNow: whether a call gets through is chosen freely, so a device may never be reached; then it waits for that device's deadline.
- Provision.UndoneRunGoesBack: takes it that no watchdog of a changed device is killed since the call that told its device was sent, and that a dead one was told, because nothing else restores it (UntoldDeadStays).
- AgentReader.EachRecord: a count with a leading zero is read as decimal here, as octal by the shell; none is sent.
- AgentReader.CutActsOn: what a record's own step does with a short body, and whether it fails, is not modelled.
- DeviceRuns.DisarmOnEvidence: asks for a prompt mark, which EvidenceNeedsAPromptMark shows it needs.
- UciPasses.StagedPasses: goes one way; with a name clash the check may pass or not, as VerifyIsExact says of what is staged.
- Records.DecodeRecords: takes a count as decimal digits, refuses any other (the original takes what JavaScript reads as a number) and refuses a write with no mode.
- UciExport.ParseUciExport: a line with no first argument is read as having the text "undefined" there.
- When.Evaluate: releases are compared by a function passed in (OnReleases passes the one modelled), and a fact that cannot exist does not throw (facts are checked as a condition is read).
- Releases.RankOf: numbers are exact whole ones, where the original's lose digits past 2^53.
- Wireguard.X25519: keys are 32 bytes; that the ladder is scalar multiplication on the curve is taken from the standard (a step's formulas are proved, the group law is not).
- Renames.RenamesMatch: takes the candidates in any order that puts the likest first.
- FreePortsLaws.LinePortNotFree: says nothing of a line reference that is no interface's on a port beside the switch; the original leaves that port free.
- Planning a device and re-reading it before arming (planDevice), and the unconfirmed run (runUnconfirmed).
- Services, hooks, run_after commands, protocols restarted after a reload: no rollback undoes them.
- The watchdog's report of access coming back, and its reboot: both end it recovered.
- The shell text of the agent, procd, the package manager, netifd.
- SSH, HTTP, files and processes of the platforms; downloads and firmware builds.
- Secrets and their redaction; a dry run's hidden values.
- Bridge VLAN lists and the sections named for each bridge port in fitPorts; other placeholders refuse a list here, as there.
- Items' order, effects, titles and the verdict of an apply's plan; descriptions of changes.
- Messages, labels, the web pages, the command line, settings schemas and their fields.
- Crypto beyond the two functions above; constant time, which the original does not claim.
