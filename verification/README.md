# Verified model of the Sofabaton hub integration

A Dafny model of the parts of the `sofabaton_x1s` Home Assistant integration that keep two copies
of something in step, with proofs about them.

- **Wifi Device store** (`Slots`, `Records`, `SlotReads`, `Store`, `StoreByKey`,
  `CommandConfigStore`, `HashLaws`, `HashContent`, `HashSwaps`, `Sorting`, `Text`, `TextLaws`):
  records with a staged slot table and a deployed snapshot. Every access normalizes the whole list
  again; the proofs show that this is a no-op on everything the store's own methods can produce.
- **Wifi Events** (`WifiEvents`, `WifiEventLaws`, `EventFields`, `SlotReuse`, `EventCells`,
  `HubFollow`, `Callbacks`): the reserved record whose slots are allocated and freed in place, the
  two reconciles that make the store follow a live edit on the hub, and the safety of slot reuse.
  `SlotReuse` tags every event with an identity the store does not have and follows it through
  every run. `EventCells` is the same record with shared mutable slot objects; `Callbacks` is what
  a button press then runs.
- **Deploying** (`CommandIds`, `WifiConfig`, `InplacePlan`, `InplacePlanner`, `InplaceRun`,
  `InplaceSync`, `ConfigOnHub`, `ManagedMatch`, `ReplacePath`): the id law, what a configuration
  means on the hub, the in-place planner and its executor with lost acknowledgements and
  interrupted attempts, the replace path with its rollbacks, and the driver that chooses between
  them. The hub follows the rule the code states: deleting a device also purges activities left
  without a member.
- **Ownership** (`Ownership`, `OwnerStages`, `SecondReconcile`, `RenameLoop`,
  `CatalogueReconcile`): which stored record a hub device belongs to, when a second reconcile
  changes nothing, and a rename in the live editor through brand, store and reconcile.
- **Background operations** (`Registry`, `RegistryCalls`), **log buffer** (`LogBuffer`), **event
  hooks** (`EventHooks`) and **quick-access order** (`Favorites`).

Loops and objects of the source are methods and classes here, each proved equal to a function on
values; the laws are lemmas about those functions. What the functions compute is also said in the
fields of records, slots and the hub, without their names (`SlotReads`, `StoreByKey`,
`HashContent`, `EventFields`, `ConfigOnHub`, `ManagedMatch`, `OwnerStages`, `RegistryCalls`,
`TextLaws`). An await-free section is one step. Replies of the hub, the clock's timers, drawn
tokens and the catalogue are parameters, so a statement holds for every reply and every order of
events. The SHA-256 digest is any function that prints fifteen hexadecimal digits. Names are
sequences of ASCII characters.

Some promises fail for inputs the code accepts. The model keeps the code's behaviour; each case
has a lemma with such an input, and a lemma that says exactly when the promise holds:

- An event named like its slot's placeholder ("Command 1" in slot 0) passes the pending-delete
  guard: its slot can be given to a new event while its record is still deployed
  (`SlotReuse.MimicRunReusesDeployedSlot`, `SlotReuse.SlotIsReusedIff`).
- A wanted command record that is missing on the hub, for instance because a live edit deleted it,
  makes every later in-place sync of the device fail before its first write, and there is no
  fallback to a replace (`InplaceRun.DeletedRecordBlocksEverySync`,
  `InplaceRun.PlanRunsThroughIff`, `InplaceSync.MissingRecordBlocksForGood`).
- Two neighbouring slots that change places leave the hash unless they differ in the case of their
  names alone: the record reads in sync while the hub has the commands under their old ids
  (`HashLaws.SwapGoesUnnoticed`, `HashSwaps.SwapIsUnseenIff`).
- A power id or an input list that is cleared stays on the hub although every step is
  acknowledged, and is due again after every sync (`InplaceRun.ClearedPowerIdStays`,
  `InplaceRun.FullTargetIff`, `InplaceRun.NextPlanIsEmptyIff`).
- A rename or removal on the hub makes a deployed record read in sync, also when another of its
  events still waits to be deployed (`EventFields.FollowHidesPending`,
  `WifiEventLaws.FollowKeepsSync`).
- The position suffix for repeated keys can itself be taken (`Records.SuffixCanCollide`,
  `Records.DedupedDistinctIff`). No run of store methods gets there (`Store.EveryRunIsStable`).
- Two hub devices with one hash can swap owners on a second reconcile
  (`SecondReconcile.SecondRunCanSwapOwners`, `SecondReconcile.SecondRunIsStableIff`).
- A renamed record is rewritten by the next reconcile when it did not yet point at the renamed
  device, and goes to another device that an earlier catalogue row gives it to
  (`CatalogueReconcile.RenamedRecordIsRewritten`, `CatalogueReconcile.EarlierNameTakes`,
  `CatalogueReconcile.RenameSurvivesReconcile`).
- If the hub deletes the old device without confirming it and the rollback succeeds, an activity
  whose only member was the old device is gone (`ReplacePath.UnconfirmedDeleteLosesActivity`,
  `ReplacePath.ActivityLostIff`).
- An update with an empty or unknown status breaks the registry (`Registry.EmptyStatusRevives`,
  `Registry.PromisesHoldIff`).
- A record that fails to format while the log buffer is full costs the oldest line
  (`LogBuffer.FailingFormatLosesARecord`, `LogBuffer.RetainedIsLongestSuffixIff`).
- Two activity ids with one low byte look like one to the change callback
  (`EventHooks.SharedByteRestarts`, `EventHooks.HooksFollowActivity`).

`dafny verify dfyconfig.toml` checks the whole project.

## Model

| member | source | states |
|---|---|---|
| `Slots.NormalizeCommandList` | custom_components/sofabaton_x1s/command_config.py:235-248 | the list loop: exactly slot_count slots, each read at its own index, missing ones default |
| `Slots.NormalizeSlotIsNormal` | custom_components/sofabaton_x1s/command_config.py:115-154 | every read slot obeys the four rules: actions filled in, no blank activity id, a long-press flag needs a hard button unless standalone, activities need a favorite or a button |
| `Slots.NormalSlotsAreTheFixedPoints` | custom_components/sofabaton_x1s/command_config.py:115-154 | reading a slot back changes nothing if and only if it obeys those rules |
| `Slots.NormalizeSlotIdempotent` | custom_components/sofabaton_x1s/command_config.py:115-189 | normalizing a slot and its actions twice is normalizing once |
| `SlotReads.SlotsRead` | custom_components/sofabaton_x1s/command_config.py:115-154 | every raw slot is read field by field: placeholder for a missing name, a long press only with a button or standing alone, activities without blank ones and only for a favorite or a button |
| `SlotReads.ActionReads` | custom_components/sofabaton_x1s/command_config.py:176-189 | an action keeps its fields and performs nothing unless it says what; of a list the first one counts |
| `SlotReads.TablesRead` | custom_components/sofabaton_x1s/command_config.py:235-248 | a table has the slot count's slots, each read from the item at its place |
| `Slots.NormalTablesAreTheFixedPoints` | custom_components/sofabaton_x1s/command_config.py:235-248 | a whole table survives re-reading exactly when all its slots are normal |
| `Slots.CountConfiguredCommandSlots` | custom_components/sofabaton_x1s/command_config.py:251-265 | the counting loop counts the slots that differ from the default when both are read without the standalone rule |
| `Slots.CountedUnlessOnlyLongPress` | custom_components/sofabaton_x1s/command_config.py:251-265 | a slot is counted if and only if it differs from its default by more than a standalone long-press flag |
| `Slots.ListingMatchesCount` | custom_components/sofabaton_x1s/command_config.py:1012-1046 | the event list is as long as the configured count if and only if no slot differs by the long-press flag alone |
| `Slots.HashIgnoresHomeAssistantSide` | custom_components/sofabaton_x1s/command_config.py:276-332 | tables that agree on the hub-side fields have the same hash, whatever their actions and standalone flags |
| `HashContent.HashTellsContents` | custom_components/sofabaton_x1s/command_config.py:276-332 | tables that hash alike under every digest have equally many slots of every content: stripped name, favorite flag, stripped button, long press with a button, stripped input, and the stripped activities in no order |
| `HashContent.SlotChangeIsSeenIff` | custom_components/sofabaton_x1s/command_config.py:276-332 | rewriting one slot keeps the hash under every digest if and only if it keeps that content |
| `HashContent.RecordChangeIsSeenIff` | custom_components/sofabaton_x1s/command_config.py:276-332 | the same of a stored record and its payload hash, so that a changed content can read out of step |
| `HashContent.DeviceChangeIsSeenIff` | custom_components/sofabaton_x1s/command_config.py:306-332 | one table hashes alike for two devices under every digest if and only if stripped name, port and both power ids from one to ten are the same |
| `Sorting.SortAlikeIff` | custom_components/sofabaton_x1s/command_config.py:295-305 | two lists sort alike by a key if and only if they agree key by key, the order within one key included |
| `TextLaws.LessIff` | custom_components/sofabaton_x1s/command_config.py:295-305 | texts are ordered by their first difference: the one that ends there or has the smaller character comes first |
| `TextLaws.TupleLessIff` | custom_components/sofabaton_x1s/command_config.py:295-305 | sort keys are ordered by their first different component |
| `HashLaws.HashAlikeIff` | custom_components/sofabaton_x1s/command_config.py:276-332 | two slot tables hash alike, whatever the digest, if and only if they have the same rows in the same order among rows of one sort key, wherever the slots are; what a row holds is said slot field by slot field below |
| `HashLaws.SwapHashesAlike` | custom_components/sofabaton_x1s/command_config.py:295-305 | so swapping two neighbouring slots with different sort keys leaves the hash |
| `HashSwaps.ToldApartIff` | custom_components/sofabaton_x1s/command_config.py:295-305 | two slots differ in the sort key if and only if their contents differ in more than the case of the name; lists of activities that only commas tell apart are taken for one |
| `HashSwaps.SwapIsUnseenIff` | custom_components/sofabaton_x1s/command_config.py:276-332 | two neighbouring slots change places unseen, under every digest, if and only if they have the same content or differ in more than the case of their names; of activities that only commas tell apart just the first half holds |
| `HashLaws.SwappedRecordReadsInSync` | custom_components/sofabaton_x1s/command_config.py:276-332 | a record in sync stays in sync under such a swap, though the hub has the commands under their old ids |
| `HashLaws.SwappedCallbackRunsTheOther` | custom_components/sofabaton_x1s/command_config.py:836-882 | the deployed callback of the one slot then runs what the other was deployed for |
| `HashLaws.SwapGoesUnnoticed` | custom_components/sofabaton_x1s/command_config.py:276-332 | such a record: slots On and Off swapped after a deploy |
| `Records.NormalizeRecordWellFormed` | custom_components/sofabaton_x1s/command_config.py:400-431 | whatever is stored, the record read is well-formed, with exactly slot_count slots |
| `Records.WellFormedRecordsAreTheFixedPoints` | custom_components/sofabaton_x1s/command_config.py:400-431 | reading a record back changes nothing if and only if it is well-formed |
| `SlotReads.RecordsRead` | custom_components/sofabaton_x1s/command_config.py:400-431 | every stored record with a key is read field by field, whatever its place: key, tidied name, slot count, table, power ids, snapshot, device id, stripped hash and port |
| `SlotReads.UnnamedRecordsRead` | custom_components/sofabaton_x1s/command_config.py:400-431 | one without a key is read under its place in the list |
| `Records.DedupRecords` | custom_components/sofabaton_x1s/command_config.py:460-469 | the loop gives a repeated key its one-based position as suffix |
| `Records.DedupedDistinctIff` | custom_components/sofabaton_x1s/command_config.py:460-469 | the keys come out distinct if and only if no suffixed key is itself taken earlier |
| `Records.SuffixCanCollide` | custom_components/sofabaton_x1s/command_config.py:465-467 | stored keys x, x3, x come out as x, x3, x3 |
| `Records.CapRecords` | custom_components/sofabaton_x1s/command_config.py:470-481 | the capping loop keeps reserved records and the first user devices up to the cap |
| `Records.CapSparesReserved` | custom_components/sofabaton_x1s/command_config.py:470-481 | after the cap at most five user devices remain, every reserved record is kept and nothing is invented |
| `SlotReads.CapKeepsFirst` | custom_components/sofabaton_x1s/command_config.py:470-481 | it keeps all reserved records and exactly the first user devices up to the cap, each group in its order |
| `Records.ReadRecords` | custom_components/sofabaton_x1s/command_config.py:457-483 | the whole re-normalizing read: normalize, de-duplicate, cap |
| `Records.ReadIsNoOp` | custom_components/sofabaton_x1s/command_config.py:457-483 | on a valid list the re-normalizing read is the identity |
| `Records.AtMostOneEventsRecord` | custom_components/sofabaton_x1s/command_config.py:978-982 | a valid list holds at most one reserved Wifi Events record |
| `Store.StepKeepsListValid` | custom_components/sofabaton_x1s/command_config.py:497-525 | every store method keeps keys distinct, at most five user devices and every record well-formed |
| `Store.EveryRunIsStable` | custom_components/sofabaton_x1s/command_config.py:457-525 | after any sequence of methods from a valid store, the list is valid and reading it back changes nothing |
| `Store.EveryStoreIsStable` | custom_components/sofabaton_x1s/command_config.py:436-447 | so it is for every store that started empty |
| `Store.SlotCountIsFrozen` | custom_components/sofabaton_x1s/command_config.py:353-368 | a record found again under its key has the slot count it had |
| `Store.PositionsAreStable` | custom_components/sofabaton_x1s/command_config.py:652-745 | no method but the deletion moves a record or changes its key |
| `Store.HalvesAreIndependent` | custom_components/sofabaton_x1s/command_config.py:704-729 | only a save, an ownership reconcile or a follow-the-hub reconcile alters a snapshot, and only slot edits alter the staged table |
| `StoreByKey.KnownKeyIsWritten` | custom_components/sofabaton_x1s/command_config.py:497-525 | a save, an id write or a table write under a stored key changes that record only, and of it exactly the fields given: snapshot, id, stripped hash and port; or the id; or the table, each slot read from the item at its place, and the power ids |
| `StoreByKey.UnknownKeyIsRefused` | custom_components/sofabaton_x1s/command_config.py:497-525 | under a key no record has it changes nothing, but for the default key while the user has no device, which appends a fresh record with those fields |
| `StoreByKey.NoKeyIsFirstUser` | custom_components/sofabaton_x1s/command_config.py:497-525 | without a key it writes the first user device, or a fresh default record if there is none |
| `StoreByKey.RenamedByKey` | custom_components/sofabaton_x1s/command_config.py:652-692 | a rename under a stored key writes that record's name, and hash if given, unless the name is blank; an unknown key changes nothing |
| `StoreByKey.DeletedByKey` | custom_components/sofabaton_x1s/command_config.py:694-702 | a deletion takes out the one record under the key and closes the gap |
| `StoreByKey.CreatedByToken` | custom_components/sofabaton_x1s/command_config.py:620-650 | a creation appends a fresh record under the first drawn token no record has, with the tidied name; at five user devices it changes nothing |
| `StoreByKey.ReconciledByKey` | custom_components/sofabaton_x1s/command_config.py:747-797 | the ownership write gives each assigned record its device id and hash and keeps the rest; of the others it clears id, hash and snapshot |
| `StoreByKey.EndpointsActOnReserved` | custom_components/sofabaton_x1s/command_config.py:973-991 | the event endpoints change the reserved record alone |
| `StoreByKey.AllocationMakesReserved` | custom_components/sofabaton_x1s/command_config.py:1070-1077 | without one, only a named allocation makes it |
| `StoreByKey.EnsuredOnce` | custom_components/sofabaton_x1s/command_config.py:993-1010 | ensuring it makes it at most once |
| `StoreByKey.StoreIsSetUp` | custom_components/sofabaton_x1s/command_config.py:457-483 | a valid list is set up as those laws ask: user devices are the records not keyed haevents, and the reserved record is made blank as Wifi Events with twenty-five free slots |
| `Store.SavesAreSyncs` | custom_components/sofabaton_x1s/hub.py:3853-3860 | a finished deploy saves, and an unmatched record is cleared, as the deploy and clearing steps of the event runs do |
| `Store.StoreOwnsEachDeviceOnce` | custom_components/sofabaton_x1s/command_config.py:747-797 | after the ownership write of a matching, no two records hold the same device id, and a record without one has no hash and no snapshot |
| `CommandConfigStore.CommandConfigStore.ReadDevices` | custom_components/sofabaton_x1s/command_config.py:457-483 | every access replaces the list by its re-normalized reading |
| `CommandConfigStore.CommandConfigStore.FindDevice` | custom_components/sofabaton_x1s/command_config.py:497-525 | lookup by key, the KeyError, and the two cases that create the default record |
| `CommandConfigStore.CommandConfigStore.CreateHubDevice` | custom_components/sofabaton_x1s/command_config.py:620-650 | refused at the cap; otherwise a default record under the first unused drawn key is appended |
| `CommandConfigStore.CommandConfigStore.DeleteHubDevice` | custom_components/sofabaton_x1s/command_config.py:694-702 | removes exactly the record with the key; true exactly when the list changed |
| `CommandConfigStore.CommandConfigStore.RenameHubDevice` | custom_components/sofabaton_x1s/command_config.py:652-692 | rewrites name and, when given, hash of one record; true exactly when something changed |
| `CommandConfigStore.CommandConfigStore.SaveDeployedCommands` | custom_components/sofabaton_x1s/command_config.py:704-729 | replaces the snapshot, device id, hash and port of one record and nothing else |
| `CommandConfigStore.CommandConfigStore.SetDeployedDeviceId` | custom_components/sofabaton_x1s/command_config.py:731-745 | sets one device id; true exactly when it differed |
| `CommandConfigStore.CommandConfigStore.ReconcileDeployedDevices` | custom_components/sofabaton_x1s/command_config.py:747-797 | the ownership write as a loop over the records; true exactly when the list changed |
| `CommandConfigStore.CommandConfigStore.SetHubCommands` | custom_components/sofabaton_x1s/command_config.py:944-971 | replaces the staged table by the normalized input under the frozen slot count |
| `CommandConfigStore.CommandConfigStore.AllocateWifiEvent` | custom_components/sofabaton_x1s/command_config.py:1048-1131 | the reserved record is created on first use, a blank name is refused before that, and the answer is the allocation law's |
| `CommandConfigStore.MadeStep` | custom_components/sofabaton_x1s/command_config.py:457-483 | on a valid list every method makes the store step of the same name and leaves the list valid |
| `CommandConfigStore.HistoriesAreRuns` | custom_components/sofabaton_x1s/command_config.py:457-483 | every history of the object from a valid list is the run of its steps, so the laws of runs hold of the object |
| `CommandConfigStore.BlankIsStep` | custom_components/sofabaton_x1s/command_config.py:1070-1072 | a blank name changes nothing, read back or not |
| `CommandConfigStore.RereadIsTidy` | custom_components/sofabaton_x1s/command_config.py:400-431 | every read hash is free of outer blanks, whatever was stored |
| `CommandConfigStore.RewritesIff` | custom_components/sofabaton_x1s/command_config.py:763-792 | the change flag of the ownership write is exact |
| `WifiEvents.Scan` | custom_components/sofabaton_x1s/command_config.py:1089-1118 | the allocation loop: first free slot not pending deletion, or the right one of three refusals |
| `WifiEvents.ScanForSlot` | custom_components/sofabaton_x1s/command_config.py:1070-1118 | the answer is the right one for the whole table |
| `WifiEvents.RightAnswerIsUnique` | custom_components/sofabaton_x1s/command_config.py:1070-1118 | table and name leave only one right answer |
| `WifiEvents.StepKeepsValid` | custom_components/sofabaton_x1s/command_config.py:1048-1353 | every wifi-event endpoint, deploy and clearing keeps the record well-formed and its slots free or pure callbacks |
| `WifiEvents.StepKeepsIdentity` | custom_components/sofabaton_x1s/command_config.py:1048-1353 | none of them changes the record's key or slot count |
| `WifiEventLaws.ListingHasConfiguredLength` | custom_components/sofabaton_x1s/command_config.py:1012-1046 | in every reachable state the event list has the configured count's length although the two compare under different rules |
| `WifiEventLaws.AllocateAddsOne` | custom_components/sofabaton_x1s/command_config.py:1048-1131 | a successful allocation adds one event at the answered index and moves no other slot; a refusal changes nothing |
| `WifiEventLaws.ResetRemovesOne` | custom_components/sofabaton_x1s/command_config.py:1145-1162 | freeing a configured slot takes one event away in place; anything else changes nothing |
| `WifiEventLaws.ResetUndoesAllocate` | custom_components/sofabaton_x1s/command_config.py:1145-1162 | freeing the slot just allocated restores the record |
| `EventFields.AllocationWrites` | custom_components/sofabaton_x1s/command_config.py:1079-1131 | under a name no event has, the first slot nobody configured whose snapshot entry is blank or a placeholder becomes a pure callback of that name; no other slot changes |
| `EventFields.AllocationRefuses` | custom_components/sofabaton_x1s/command_config.py:1070-1118 | without a usable name or such a slot nothing changes |
| `EventFields.ResetWrites` | custom_components/sofabaton_x1s/command_config.py:1145-1162 | freeing an event makes its slot a fresh one and changes no other; anything else changes nothing |
| `EventFields.SetActionWrites` | custom_components/sofabaton_x1s/command_config.py:1164-1183 | the action is written into the press it is for, into no other field or slot |
| `EventFields.SetLongPressWrites` | custom_components/sofabaton_x1s/command_config.py:1334-1353 | the flag is written, into no other field or slot |
| `EventFields.EditWrites` | custom_components/sofabaton_x1s/command_config.py:1237-1321 | one rename or removal on the hub, field by field on both sides: an event and its entry take the new name; a dropped short record leaves a fresh slot and a placeholder entry; a dropped long one takes the long press and its action |
| `EventFields.FollowWrites` | custom_components/sofabaton_x1s/command_config.py:1256-1332 | beside the two tables a reconcile writes only the hash, and only when it changed them and one is deployed: then it is the hash the record has |
| `EventFields.FollowHidesPending` | custom_components/sofabaton_x1s/command_config.py:1256-1268 | so after a rename on the hub a record reads in sync though another of its events still waits to be deployed |
| `EventFields.SyncWrites` | custom_components/sofabaton_x1s/hub.py:3853-3860 | a deploy with events makes the staged table the snapshot with id, hash and port; without any it clears the deployed fields |
| `TextLaws.NamesClashIff` | custom_components/sofabaton_x1s/command_config.py:335-339 | two event names clash if and only if they have the same words but for case, words being split at blanks and underscores |
| `WifiEventLaws.HomeAssistantEditsKeepHash` | custom_components/sofabaton_x1s/command_config.py:1164-1183 | setting an action or a standalone long-press flag never changes hash or sync status |
| `WifiEventLaws.SyncSettlesStatus` | custom_components/sofabaton_x1s/command_config.py:1185-1209 | right after a deploy the record reads in sync exactly when it had something configured |
| `WifiEventLaws.FollowKeepsSync` | custom_components/sofabaton_x1s/command_config.py:1211-1332 | both reconciles keep a record that read in sync in sync; one that changed anything leaves a record in sync if and only if a hash was deployed, whatever still waits |
| `WifiEventLaws.FollowKeepsAgreement` | custom_components/sofabaton_x1s/command_config.py:1211-1332 | both reconciles keep staged and deployed names equal on every covered index |
| `WifiEventLaws.RemovalsBySet` | custom_components/sofabaton_x1s/command_config.py:1297-1321 | the removals act slot by slot on the set of removed ids |
| `WifiEventLaws.RemovalsIgnoreOrder` | custom_components/sofabaton_x1s/command_config.py:1297-1321 | order and repetition of the removed ids do not matter |
| `WifiEventLaws.RemovalsAreIdempotent` | custom_components/sofabaton_x1s/command_config.py:1297-1321 | the same removals again report no change |
| `WifiEventLaws.RenamesAreIdempotent` | custom_components/sofabaton_x1s/command_config.py:1237-1255 | the same renames again report no change |
| `HubFollow.RenamesBySlot` | custom_components/sofabaton_x1s/command_config.py:1237-1255 | renames act slot by slot, through the short id only |
| `HubFollow.StoreFollowsHub` | custom_components/sofabaton_x1s/__init__.py:2400-2447 | after a live edit the store agrees with the edited bundle: dropped events are free slots, kept ones carry the edited label |
| `SlotReuse.SlotIsReusedIff` | custom_components/sofabaton_x1s/command_config.py:1070-1118 | over every run, the slot of a deployed event is never given to another event if and only if no allocation comes, while that event is on the hub, with a usable name, that slot free, the placeholder name on its deployed entry and no available slot before it; all of it can be checked on record and call beforehand |
| `SlotReuse.AllocatedIff` | custom_components/sofabaton_x1s/command_config.py:1070-1118 | where the deployed entry has a name, that guard holds exactly when the allocator answers the slot |
| `SlotReuse.AvoidedSlotIsNotReused` | custom_components/sofabaton_x1s/command_config.py:1095-1114 | slot by slot: where no event placed there and no rename takes the slot's placeholder name, that holds, whatever the other slots do |
| `SlotReuse.NoDeployedSlotIsReused` | custom_components/sofabaton_x1s/command_config.py:1095-1114 | when that is so of all slots, a slot with a deployed event stages that event or nothing |
| `SlotReuse.ReusedSlotIsMimicked` | custom_components/sofabaton_x1s/command_config.py:1105-1114 | an allocation that gives such a slot away found the slot's placeholder name on the deployed entry |
| `SlotReuse.MimicRunReusesDeployedSlot` | custom_components/sofabaton_x1s/command_config.py:1105-1114 | a run with an event named like the placeholder that does so |
| `SlotReuse.FirstEventSlotCanBeReused` | custom_components/sofabaton_x1s/command_config.py:993-1009 | it does so on the reserved record as it is created |
| `Callbacks.RecordOfIff` | custom_components/sofabaton_x1s/command_config.py:799-834 | a hub device id leads to a record if and only if that record alone holds it, or is the only record and never had an id |
| `Callbacks.CallbackRunsStagedSlot` | custom_components/sofabaton_x1s/command_config.py:836-882 | a callback runs exactly the staged slot of its index, and only inside the deployed snapshot |
| `Callbacks.CallbackResolves` | custom_components/sofabaton_x1s/command_config.py:799-882 | where one record answers for the id, a callback runs the staged slot at its index or, for an index the staged table lacks or a negative id, the deployed one; where none does, or beyond the snapshot, nothing |
| `Callbacks.ReconciledCallbacksResolve` | custom_components/sofabaton_x1s/hub.py:3095-3165 | after an ownership reconcile every device id in the store leads to the record that holds it |
| `Callbacks.CallbackNeverCrossesEvents` | custom_components/sofabaton_x1s/hub.py:2909-2983 | in every state safe at that slot a callback deployed for an event runs that event or a freed slot, never another event |
| `Callbacks.ActionTakesEffect` | custom_components/sofabaton_x1s/command_config.py:1164-1183 | an action set is what the next press runs, without a deploy; the other press is untouched |
| `Callbacks.LongPressTakesEffect` | custom_components/sofabaton_x1s/command_config.py:1334-1353 | the long-press flag too needs no deploy: the next long press runs its action, or nothing; the short press is untouched |
| `EventCells.CopyCells` | custom_components/sofabaton_x1s/command_config.py:984-991 | normalized copies are new objects, all different |
| `EventCells.EditCells` | custom_components/sofabaton_x1s/command_config.py:1237-1321 | one rename or removal, written into cells in place, is the edit on values; the flag is exact |
| `EventCells.EditAll` | custom_components/sofabaton_x1s/command_config.py:1237-1321 | so is a whole list of them |
| `EventCells.FollowedIsFollow` | custom_components/sofabaton_x1s/command_config.py:1256-1268 | tables plus recomputed hash make up the reconcile |
| `EventCells.MethodsAreSteps` | custom_components/sofabaton_x1s/command_config.py:984-991 | on a valid record, where reading the staged table back changes nothing, each method below makes the step of the event runs |
| `EventCells.EventsRecord.AllocateEvent` | custom_components/sofabaton_x1s/command_config.py:1119-1131 | allocation writes no cell that existed before, so the snapshot keeps its objects and their contents, even if lists were shared |
| `EventCells.EventsRecord.ResetEvent` | custom_components/sofabaton_x1s/command_config.py:1145-1162 | the same for freeing a slot |
| `EventCells.EventsRecord.SetEventAction` | custom_components/sofabaton_x1s/command_config.py:1164-1183 | the same for an action written in place into the copy |
| `EventCells.EventsRecord.SetEventLongPress` | custom_components/sofabaton_x1s/command_config.py:1334-1353 | the same for the long-press flag |
| `EventCells.EventsRecord.SaveDeployed` | custom_components/sofabaton_x1s/command_config.py:704-729 | the snapshot becomes the list handed in, object for object |
| `EventCells.EventsRecord.Deploy` | custom_components/sofabaton_x1s/hub.py:4266-4273 | a deploy leaves staged and deployed cells disjoint |
| `EventCells.EventsRecord.FollowHub` | custom_components/sofabaton_x1s/command_config.py:1211-1332 | the only writer of deployed cells: it changes their names in place and leaves the lists disjoint |
| `CommandIds.EncodeThenDecode` | custom_components/sofabaton_x1s/command_config.py:1039-1040 | an encoded press decodes to its slot and press |
| `CommandIds.DecodeThenEncode` | custom_components/sofabaton_x1s/command_config.py:1301-1311 | every id from 1 to twice the slot count is the id of exactly what it decodes to; no other id decodes |
| `CommandIds.LayOutRecords` | custom_components/sofabaton_x1s/hub.py:3944-3963 | the two deploy loops put each press at the list position its id names |
| `CommandIds.ExpectLabels` | custom_components/sofabaton_x1s/hub.py:3493-3497 | the drift gate expects a label for exactly the encoded ids |
| `CommandIds.ExpectedIsDeployed` | custom_components/sofabaton_x1s/hub.py:3493-3497 | what the gate expects of an id is what the deploy wrote there |
| `CommandIds.RemovalHitsItsSlot` | custom_components/sofabaton_x1s/command_config.py:1301-1311 | removing an encoded id touches exactly its slot |
| `Ownership.BrandRoundTrip` | custom_components/sofabaton_x1s/hub.py:101-115 | parsing a printed brand gives back key and hash |
| `Ownership.ParsedBrand` | custom_components/sofabaton_x1s/hub.py:101-115 | behind either prefix stands a hash, or a key and a hash split at the first dash; the key is its letters and digits in lower case, or the default one |
| `Ownership.ForeignBrand` | custom_components/sofabaton_x1s/hub.py:101-115 | a brand with neither prefix carries neither |
| `Ownership.MatchBy` | custom_components/sofabaton_x1s/hub.py:3118-3160 | the matching loop, for any way of choosing an owner |
| `Ownership.MatchOwners` | custom_components/sofabaton_x1s/hub.py:3095-3160 | the loop with the five stages in order |
| `Ownership.AssignIsOneToOne` | custom_components/sofabaton_x1s/hub.py:3104-3160 | no stored key and no device is assigned twice; every assignment names a stored record and a live managed device |
| `Ownership.PickUniqueIff` | custom_components/sofabaton_x1s/hub.py:3107-3114 | a stage picks a record exactly when it is the only unassigned candidate |
| `OwnerStages.OwnerIff` | custom_components/sofabaton_x1s/hub.py:3118-3160 | a device's owner is the free record its brand names; else the only free one with the brand's hash deployed, else staged, else deployed to the device; else the only record, if the device is the only one |
| `OwnerStages.AssignedIff` | custom_components/sofabaton_x1s/hub.py:3118-3160 | a record goes to a device of the catalogue exactly when it is that owner among the records no earlier device was given |
| `Ownership.ReconcileOwnsEachDeviceOnce` | custom_components/sofabaton_x1s/command_config.py:747-797 | afterwards deployed ids are pairwise distinct and name live managed devices; unmatched records are cleared |
| `Ownership.KeyedDevicesGoHome` | custom_components/sofabaton_x1s/hub.py:3121-3124 | with distinct stored keys on all brands each device goes to its own record, wherever it stands |
| `Ownership.KeyedReconcileIsStable` | custom_components/sofabaton_x1s/hub.py:3095-3165 | then a second run changes nothing |
| `SecondReconcile.SameOwnerIff` | custom_components/sofabaton_x1s/hub.py:3107-3160 | asked again on the written store a device gets the same owner exactly when its brand key decides, or the one record left under its hash is its own, or with several or none left the commands-hash stage names nobody or its owner |
| `SecondReconcile.SecondRunIsStableIff` | custom_components/sofabaton_x1s/hub.py:3095-3165 | a second run changes nothing if and only if that holds of every device |
| `SecondReconcile.DistinctHashesAreStable` | custom_components/sofabaton_x1s/hub.py:3095-3165 | in particular when no two devices carry one hash |
| `SecondReconcile.SecondRunCanSwapOwners` | custom_components/sofabaton_x1s/hub.py:3095-3165 | two devices of one hash: the second run swaps the owners |
| `CatalogueReconcile.ReconcileIsStableIff` | custom_components/sofabaton_x1s/hub.py:3095-3165 | the same of the store itself, reconciled twice on one catalogue |
| `RenameLoop.StampedHashIsRecomputed` | custom_components/sofabaton_x1s/__init__.py:2363-2381 | the hash stamped into the brand is the one the store recomputes under the new name |
| `RenameLoop.RecordForIff` | custom_components/sofabaton_x1s/__init__.py:2341-2356 | with distinct keys the record renamed is the one the brand's key names, or, if it names none, the one alone deployed to the device |
| `RenameLoop.NothingToRename` | custom_components/sofabaton_x1s/__init__.py:2334-2356 | a blank or unchanged name, or a device no record belongs to, renames nothing and keeps the brand |
| `RenameLoop.OutOfSyncKeepsBrand` | custom_components/sofabaton_x1s/__init__.py:2358-2387 | a record out of sync takes the name and keeps hash and brand |
| `RenameLoop.RenameKeepsSync` | custom_components/sofabaton_x1s/__init__.py:2306-2387 | the in-sync record the device belongs to changes in name and hash only and stays in sync, and the stamped brand parses to its key and hash |
| `RenameLoop.ReconcileFindsRenamed` | custom_components/sofabaton_x1s/hub.py:3095-3165 | a record goes to the device whose brand names it if and only if no earlier device of the catalogue takes it; later devices and the port the reconcile hashes under do not matter |
| `RenameLoop.UnclaimedIsFree` | custom_components/sofabaton_x1s/hub.py:3107-3160 | no earlier device takes it when none carries its key, one of its hashes or its device id |
| `RenameLoop.NamedEarlierIsTaken` | custom_components/sofabaton_x1s/hub.py:3118-3124 | an earlier device takes it when that device's brand names it too |
| `CatalogueReconcile.NamedRecordIsKept` | custom_components/sofabaton_x1s/hub.py:3095-3165 | from catalogue row to store: the record such a row names comes out with the row's device id and otherwise as it was, if and only if no earlier row's device took it |
| `CatalogueReconcile.UnclaimedIsNotTaken` | custom_components/sofabaton_x1s/hub.py:3095-3165 | no earlier row takes it when none reads as its key, one of its hashes or its device id |
| `CatalogueReconcile.EarlierNameTakes` | custom_components/sofabaton_x1s/hub.py:3095-3165 | an earlier row whose brand names the record takes it from the later one |
| `CatalogueReconcile.RenameSurvivesReconcile` | custom_components/sofabaton_x1s/__init__.py:2306-2387 | the whole loop: the next reconcile keeps the new name and, if and only if no earlier row's device takes the record, changes it in its device id alone; it then reads in sync, and is unchanged exactly when it already pointed at the renamed device |
| `CatalogueReconcile.RenamedIsStep` | custom_components/sofabaton_x1s/__init__.py:2306-2387 | the store's rename under the pending key is the rename of that record |
| `CatalogueReconcile.RenamedRecordIsRewritten` | custom_components/sofabaton_x1s/hub.py:3095-3165 | a record without a device id is rewritten by it |
| `WifiConfig.ConfigurationsAreWellFormed` | custom_components/sofabaton_x1s/lib/wifi_inplace_plan.py:578-700 | a configuration has inputs without repetition and ordinals that exist; what else it asks for is said of the hub, below |
| `WifiConfig.ConfigurationsNameOwnIds` | custom_components/sofabaton_x1s/lib/wifi_inplace_plan.py:578-700 | every command id it names, as input, favorite or on a button, is one it labels |
| `WifiConfig.AmbiguousButtonsGetNoDeviceKey` | custom_components/sofabaton_x1s/lib/wifi_inplace_plan.py:530-575 | a hard button two slots claim gets no device-level key |
| `ConfigOnHub.HeadAfter` | custom_components/sofabaton_x1s/lib/wifi_inplace_plan.py:682-700 | after a complete sync the hub device has the request's name and brand and its power ids; an unset one keeps what the hub held |
| `ConfigOnHub.InputsAfter` | custom_components/sofabaton_x1s/lib/wifi_inplace_plan.py:629-641 | its inputs are the ids of the slots that select one, in slot order; with none it keeps its list |
| `ConfigOnHub.RecordsAfter` | custom_components/sofabaton_x1s/lib/wifi_inplace_plan.py:615-628 | record i + 1 carries slot i's stripped name, or its placeholder if blank; the long record the same with its suffix |
| `ConfigOnHub.NoOtherRecords` | custom_components/sofabaton_x1s/lib/wifi_inplace_plan.py:615-628 | there are records for the slots and no others |
| `ConfigOnHub.KeysAfter` | custom_components/sofabaton_x1s/lib/wifi_inplace_plan.py:553-575 | a device key runs the one slot that claims its button; where none or several do it stays, unless the deployed slots put it there |
| `ConfigOnHub.MembersAfter` | custom_components/sofabaton_x1s/lib/wifi_inplace_plan.py:643-680 | the device is in an activity exactly when a slot names it as input, or lists it and is a favorite or has a button, or when it was there and not through the deployed slots |
| `ConfigOnHub.FavoritesAfter` | custom_components/sofabaton_x1s/lib/wifi_inplace_plan.py:643-680 | there slot i's favorite is kept exactly when the slot is a favorite listing the activity, or when it was there and not through the deployed slots |
| `ConfigOnHub.ButtonsAfter` | custom_components/sofabaton_x1s/lib/wifi_inplace_plan.py:643-680 | there a button runs the last slot that claims it for the activity; one that no slot claims stays, unless it is ours through the deployed slots |
| `ConfigOnHub.InputAfter` | custom_components/sofabaton_x1s/lib/wifi_inplace_plan.py:629-641 | there the input selected is the record of the first slot that names the activity as its input, or none |
| `ConfigOnHub.DeclinedIff` | custom_components/sofabaton_x1s/lib/wifi_inplace_plan.py:172-202 | the planner declines exactly when leaving an activity would empty it |
| `InplacePlan.PlanHas` | custom_components/sofabaton_x1s/lib/wifi_inplace_plan.py:172-435 | a step is planned exactly when the live hub needs it |
| `InplacePlanner.BuildPlan` | custom_components/sofabaton_x1s/lib/wifi_inplace_plan.py:172-435 | the planner's loops produce that plan, or decline when a removal would empty an activity |
| `InplaceRun.StepKeepsTarget` | custom_components/sofabaton_x1s/lib/proxy_activity_sync.py:1424-1477 | executing a planned step, or one row of a power step, does not move the state the plan aims at |
| `InplaceRun.NeedsShrink` | custom_components/sofabaton_x1s/lib/proxy_activity_sync.py:1424-1477 | a step executed creates no new need and is needed no longer, unless it has nothing to write: a power id or an input list to clear |
| `InplaceRun.NoNeedsIsTarget` | custom_components/sofabaton_x1s/lib/wifi_inplace_plan.py:178-202 | a hub that needs nothing the executor can write is at the target |
| `InplaceRun.PlanIsRunnable` | custom_components/sofabaton_x1s/lib/wifi_inplace_plan.py:424-435 | in the planned order every step finds the inputs and memberships it relies on |
| `InplaceRun.PlanReachesTarget` | custom_components/sofabaton_x1s/lib/proxy_activity_sync.py:1602-1645 | an attempt with all its acknowledgements ends at the target, in which cleared power ids and an emptied input list keep what the hub held, and is complete, if and only if no labelled command record is missing on the hub; otherwise it ends where it began |
| `InplaceRun.MissingRecordBlocks` | custom_components/sofabaton_x1s/lib/proxy_activity_sync.py:1040-1046 | a missing record heads the plan as an addition without the record data its handler insists on, so nothing is written |
| `InplaceRun.FullTargetIff` | custom_components/sofabaton_x1s/lib/proxy_activity_sync.py:1424-1477 | such an attempt ends at the configuration itself if and only if no record was missing and no power id or input list had to be cleared |
| `InplaceRun.NextPlanHas` | custom_components/sofabaton_x1s/lib/proxy_activity_sync.py:1424-1477 | planned after such an attempt are exactly those clearings or, with a record missing, all that was planned before |
| `InplaceRun.NextPlanIsEmptyIff` | custom_components/sofabaton_x1s/lib/wifi_inplace_plan.py:172-435 | nothing is planned after it if and only if no record was missing and nothing had to be cleared, and it changes neither fact: otherwise steps stay due after every sync |
| `InplaceRun.ClearedPowerIdStays` | custom_components/sofabaton_x1s/lib/proxy_activity_sync.py:1438-1441 | power-on command 3 cleared: every step acknowledged, the hub keeps 3, the same plan is due again |
| `InplaceRun.PlanRunsThroughIff` | custom_components/sofabaton_x1s/lib/wifi_inplace_plan.py:225-233 | every step of the plan is accepted when its turn comes if and only if each configured activity and each labelled command record is on the hub |
| `InplaceRun.DeletedRecordBlocksEverySync` | custom_components/sofabaton_x1s/lib/proxy_activity_sync.py:1040-1046 | a wanted record deleted on the hub: the head is to be rewritten, no attempt is complete, and each ends where it began |
| `InplaceSync.ClassifyRecords` | custom_components/sofabaton_x1s/hub.py:3518-3528 | the gate sorts live records into drifted and resumed, the drifted ones matching neither side |
| `InplaceSync.RunKeepsNoDrift` | custom_components/sofabaton_x1s/hub.py:3508-3528 | any part of a planned run leaves a label table that passes the gate |
| `InplaceSync.NoRecordIsDeleted` | custom_components/sofabaton_x1s/lib/wifi_inplace_plan.py:257-265 | behind the gate no plan deletes a command record |
| `InplaceSync.ApplyTwice` | custom_components/sofabaton_x1s/lib/proxy_activity_sync.py:1631-1642 | repeating a step is harmless, so the single retry is |
| `InplaceSync.Session.RunPlan` | custom_components/sofabaton_x1s/lib/proxy_activity_sync.py:1602-1645 | steps take effect in order; a run that stops has all the acknowledged ones and of the next nothing, all of it, or one row of a power step; no step that is not accepted has any effect, and success means every one was accepted |
| `InplaceSync.Session.CheckGates` | custom_components/sofabaton_x1s/hub.py:3409-3552 | a plan comes back exactly when port, snapshot of the device id, baseline, labels and planner allow one |
| `InplaceSync.SnapshotFoundIff` | custom_components/sofabaton_x1s/command_config.py:799-834 | the snapshot gate finds one exactly when a single record answers for the device id and was deployed: a device matched by hash or key alone is replaced while other records exist |
| `InplaceSync.SnapshotIs` | custom_components/sofabaton_x1s/command_config.py:799-834 | it is the deployed table of that record, cut to the slot count |
| `InplaceSync.Session.TryInplace` | custom_components/sofabaton_x1s/hub.py:3409-3673 | declined: nothing written; failed: part of the plan took effect and the deployed fields are untouched; applied: the hub is what the complete plan makes of it (see `ConfigOnHub`), each configured activity and labelled record was there, and the fields saved; with a record missing it is never applied and writes nothing |
| `InplaceSync.ResumeReachesTarget` | custom_components/sofabaton_x1s/hub.py:3508-3528 | however often and wherever earlier attempts stopped, even between the two rows of a power step, the next passes the gates, and completing it ends where an uninterrupted run would; it can be completed if and only if no record was missing at the start |
| `InplaceSync.MissingRecordBlocksForGood` | custom_components/sofabaton_x1s/lib/proxy_activity_sync.py:1040-1046 | with a record missing no number of attempts writes anything or can be completed |
| `InplaceSync.SyncAgain` | custom_components/sofabaton_x1s/hub.py:3409-3673 | a sync can complete if and only if no record is missing; the one after it then passes the gates on the snapshot just saved, and has nothing to write if and only if nothing had to be cleared; with a record missing nothing was written and the plan is due again |
| `InplaceSync.FailedTailIsMadeUp` | custom_components/sofabaton_x1s/hub.py:3609-3673 | when the calls after the last write fail, the hub has the new brand and the store the old snapshot: the same request passes the gates again, with nothing to write if and only if nothing had to be cleared |
| `InplaceSync.BrandIsCommittedLast` | custom_components/sofabaton_x1s/lib/wifi_inplace_plan.py:406-435 | while the brand differs, a stopped run leaves the old brand if and only if it stopped short of the last step |
| `InplaceSync.ForeignReferencesSurvive` | custom_components/sofabaton_x1s/lib/wifi_inplace_plan.py:181-198 | reference by reference: wanted ones are there, foreign ones survive, ours go only when no longer wanted |
| `InplaceSync.ForeignActivitiesSurvive` | custom_components/sofabaton_x1s/lib/wifi_inplace_plan.py:192-198 | an activity the configuration never named is untouched |
| `ManagedMatch.AtMostOneIsReplaced` | custom_components/sofabaton_x1s/hub.py:3043-3093 | at most one device is ever offered for deletion; a known id alone decides; an ambiguous match offers none |
| `ManagedMatch.OfferedIff` | custom_components/sofabaton_x1s/hub.py:3043-3093 | without an id a device is offered exactly when it is the only one with the deployed hash, else with the commands hash, else with the key, else when it is the only device and at most one record is stored; the match is ambiguous exactly when the first of these that fits fits several |
| `ManagedMatch.OfferedIsEntitled` | custom_components/sofabaton_x1s/hub.py:3043-3093 | so a device that carries neither the claim's hashes nor its key is only offered in that last case |
| `ReplacePath.JoinsOnlyAdd` | custom_components/sofabaton_x1s/hub.py:4015-4030 | the joins add the new device and touch nothing else; all are confirmed or the run is undone |
| `ReplacePath.ActivityLostIff` | custom_components/sofabaton_x1s/hub.py:3996-4066 | for any number of old devices and any replies, a referenced activity with members is lost if and only if deletions confirmed or not took all its members and the undo took the new one |
| `ReplacePath.ReferencedActivitiesSurvive` | custom_components/sofabaton_x1s/hub.py:3996-4066 | with one old device that needs a deletion applied without confirmation, an applied undo and that device as the only member |
| `ReplacePath.UnconfirmedDeleteLosesActivity` | custom_components/sofabaton_x1s/hub.py:4051-4062 | such a run |
| `ReplacePath.FinishedIff` | custom_components/sofabaton_x1s/hub.py:4025-4062 | the run finishes exactly when every call is confirmed |
| `ReplacePath.FinishedSwapsDevices` | custom_components/sofabaton_x1s/hub.py:3965-4066 | then the new device has replaced the old ones in the device list and in every joined activity |
| `ReplacePath.ReplaceDeletesOnly` | custom_components/sofabaton_x1s/hub.py:3996-4066 | a replace deletes no device but the old ones and its own, whatever the replies |
| `ReplacePath.RollbackRestoresHub` | custom_components/sofabaton_x1s/hub.py:4029-4062 | a rolled-back run that deleted no old device restores the hub, up to activities that were already empty |
| `ReplacePath.Deployer.Replace` | custom_components/sofabaton_x1s/hub.py:3965-4066 | the three loops with their exits are that run |
| `ReplacePath.Deployer.ClearDeployment` | custom_components/sofabaton_x1s/hub.py:3838-3864 | with nothing configured: delete the match, then clear the deployed fields, only if every deletion is confirmed; no device the claim is not entitled to is ever deleted |
| `ReplacePath.Deployer.SyncConfig` | custom_components/sofabaton_x1s/hub.py:3820-4285 | an ambiguous match stops everything; an in-place run that passed the gates never falls through to a replace, whatever it ends in, and with a record missing it fails and writes nothing; the deployed fields change only on success, and no device is deleted but its own and one the claim is entitled to |
| `Registry.PromisesHoldIff` | custom_components/sofabaton_x1s/__init__.py:95-316 | a call is one after which every run of proper calls keeps the promises (one active operation per entry, timers, notices) if and only if its caller kept its side: known status or none, bundle only with a finished one, no guarded stash |
| `Registry.PromisesHoldFromStart` | custom_components/sofabaton_x1s/__init__.py:95-100 | on a new registry every run of proper calls keeps the promises |
| `Registry.StepKeepsInv` | custom_components/sofabaton_x1s/__init__.py:95-316 | one proper call keeps the registry invariant |
| `Registry.RunKeepsInv` | custom_components/sofabaton_x1s/__init__.py:95-316 | so does every run: one active operation per entry, one per entry and kind, live timers one to one with finished operations, no active notice after a finished one |
| `Registry.ActiveOperationsSurvive` | custom_components/sofabaton_x1s/__init__.py:219-316 | no start, dismissal, stash or cleanup removes an active operation |
| `Registry.FinishedStaysFinished` | custom_components/sofabaton_x1s/__init__.py:163-169 | a finished operation never becomes active again |
| `Registry.LatestIsTheOnlyOne` | custom_components/sofabaton_x1s/__init__.py:136-145 | the latest operation of an entry and kind is the only one |
| `Registry.EmptyStatusRevives` | custom_components/sofabaton_x1s/__init__.py:157-176 | an empty status over a finished one lets a late update revive the operation under a live timer, which then removes it running |
| `Registry.DropCompletedDrops` | custom_components/sofabaton_x1s/__init__.py:303-316 | exactly the completed operations of that entry and kind go |
| `RegistryCalls.ProgressDoes` | custom_components/sofabaton_x1s/__init__.py:157-176 | an update takes over the status and bundle it carries and nothing else, is told once, and sets a new timer in place of the old exactly when the status is then finished; a late active one over a finished one does nothing |
| `RegistryCalls.StartDoes` | custom_components/sofabaton_x1s/__init__.py:1969-1994 | a start while the entry has an active operation does nothing; otherwise a pending one replaces the completed ones of its kind, untold |
| `RegistryCalls.StashDoes` | custom_components/sofabaton_x1s/__init__.py:2087-2100 | a stash replaces the completed ones of its kind by a success with a bundle and a timer, told once |
| `RegistryCalls.ClearDoes` | custom_components/sofabaton_x1s/__init__.py:204-217 | clearing a bundle drops it, marks it downloaded, is told and sets a new timer; without a bundle nothing happens |
| `RegistryCalls.DiscardDoes` | custom_components/sofabaton_x1s/__init__.py:219-240 | a dismissal takes a finished operation away with its timer, untold |
| `RegistryCalls.DownloadDoes` | custom_components/sofabaton_x1s/__init__.py:242-259 | a download is marked and told once and leaves the timers alone |
| `RegistryCalls.ExpireDoes` | custom_components/sofabaton_x1s/__init__.py:284-299 | a timer takes its operation away; only the loss of a bundle is told |
| `Registry.OperationRegistry.HasRunningForEntry` | custom_components/sofabaton_x1s/__init__.py:126-134 | the busy check finds an active operation of the entry exactly when there is one |
| `Registry.OperationRegistry.LatestForEntry` | custom_components/sofabaton_x1s/__init__.py:136-145 | the reversed scan finds the newest match |
| `Registry.OperationRegistry.CreateOperation` | custom_components/sofabaton_x1s/__init__.py:103-120 | drops completed operations of the kind, then adds a new one |
| `Registry.OperationRegistry.UpdateOperation` | custom_components/sofabaton_x1s/__init__.py:157-176 | guard, merge, notice and rescheduling are the update step |
| `Registry.OperationRegistry.SubscribeTo` | custom_components/sofabaton_x1s/__init__.py:181-194 | a subscriber is told the current state at once, if the operation is there |
| `Registry.OperationRegistry.ScheduleCleanup` | custom_components/sofabaton_x1s/__init__.py:273-301 | the previous timer is cancelled before a new one is set |
| `Registry.OperationRegistry.ClearBackupResult` | custom_components/sofabaton_x1s/__init__.py:204-217 | drops a bundle and reschedules, only if there is one |
| `Registry.OperationRegistry.DismissOperation` | custom_components/sofabaton_x1s/__init__.py:219-240 | refuses active operations, otherwise removes operation and timer |
| `Registry.OperationRegistry.FlagBackupDownloaded` | custom_components/sofabaton_x1s/__init__.py:242-259 | marks once and leaves the timer alone |
| `Registry.OperationRegistry.Cleanup` | custom_components/sofabaton_x1s/__init__.py:284-299 | a timer going off announces an expired bundle and removes the operation |
| `Registry.OperationRegistry.StartOperation` | custom_components/sofabaton_x1s/__init__.py:1969-1994 | the shared check-then-create section: refused exactly when the entry is busy |
| `Registry.OperationRegistry.StashEdited` | custom_components/sofabaton_x1s/__init__.py:2087-2100 | a stashed bundle enters finished, with its own timer |
| `LogBuffer.TrimIsLongestSuffix` | custom_components/sofabaton_x1s/diagnostics.py:49-68 | trimming from the front yields the longest suffix within both bounds: a suffix fits exactly when it is no longer |
| `LogBuffer.RetainedStep` | custom_components/sofabaton_x1s/diagnostics.py:49-68 | making room, appending and evicting one record takes the expected buffer of a history to that of the longer one |
| `LogBuffer.RetainedIsLongestSuffixIff` | custom_components/sofabaton_x1s/diagnostics.py:51-55 | read off the expected buffer: it is the longest fitting suffix of all formatted lines if and only if the last emission did not fail to format on a full buffer |
| `LogBuffer.FormattedHistoryIsKept` | custom_components/sofabaton_x1s/diagnostics.py:49-68 | without format failures it always is |
| `LogBuffer.KeptAreTheLatest` | custom_components/sofabaton_x1s/diagnostics.py:40-68 | without format failures a new handler holds the longest suffix of at most 5000 lines and 524288 characters |
| `LogBuffer.FailingFormatLosesARecord` | custom_components/sofabaton_x1s/diagnostics.py:51-55 | a failing format on a full buffer loses the oldest line |
| `LogBuffer.LogHandler.Emit` | custom_components/sofabaton_x1s/diagnostics.py:49-68 | after any history the records are the expected ones, the longest fitting suffix exactly under that condition, and the running counter is the number of characters they hold |
| `EventHooks.ChangeIsWatched` | custom_components/sofabaton_x1s/hub.py:563-589 | the hooks of one change lead from the old activity to the new one, exactly when they differ |
| `EventHooks.HooksFollowActivity` | custom_components/sofabaton_x1s/hub.py:543-597 | over every run: only redundant-off before arming; from then on stop precedes start, the two alternate, power-off fires on the way to no activity and the trace ends at the tracked activity, if and only if no armed change was between ids of one low byte |
| `EventHooks.ByteIdsNeverConfuse` | custom_components/sofabaton_x1s/hub.py:543-597 | for ids below 256 that is always so |
| `EventHooks.SharedByteRestarts` | custom_components/sofabaton_x1s/hub.py:563-580 | ids 1 and 257: activity 1 starts twice without stopping |
| `EventHooks.TrackedActivityFollowsProxy` | custom_components/sofabaton_x1s/hub.py:697-765 | with catalogues that agree with the proxy the hub object always names the tracked activity |
| `EventHooks.ArmedIff` | custom_components/sofabaton_x1s/hub.py:543-597 | the hooks are armed exactly when some complete read or change of activity armed them |
| `EventHooks.EventFires` | custom_components/sofabaton_x1s/hub.py:543-608 | the hooks each event adds: of an armed change stop, hub stop, start, hub start and power-off as its two ends call for; of an OFF press while off the redundant one; of anything else none |
| `EventHooks.CurrentIsLastReport` | custom_components/sofabaton_x1s/hub.py:697-765 | after any run the hub object names the activity of the last event that reported one: a change, a complete read, or a list with an active entry; none before that |
| `EventHooks.EventHooks.ActivityChanged` | custom_components/sofabaton_x1s/hub.py:543-597 | arming, tracked activity and created hooks of one change callback |
| `EventHooks.EventHooks.ActivitiesBurst` | custom_components/sofabaton_x1s/hub.py:717-752 | a complete read arms and resynchronizes, fires nothing |
| `EventHooks.EventHooks.ActivityListUpdated` | custom_components/sofabaton_x1s/hub.py:754-765 | a list update never clears the tracked activity and never arms |
| `EventHooks.EventHooks.RedundantOffPressed` | custom_components/sofabaton_x1s/hub.py:599-608 | fires its hook whether armed or not |
| `Favorites.DescribeOrder` | custom_components/sofabaton_x1s/hub.py:2290-2382 | the three loops produce the described list |
| `Favorites.EachIdOnceIff` | custom_components/sofabaton_x1s/hub.py:2341-2382 | exactly the ids of order, favorites and macros are listed, each once if and only if the order's ids are distinct modulo 256 |
| `Favorites.ListedIds` | custom_components/sofabaton_x1s/hub.py:2341-2382 | an id is listed as often as the order has it, and once more if only the caches have it |
| `Favorites.EntryShowsFavorite` | custom_components/sofabaton_x1s/hub.py:2290-2382 | an entry shows device, command and label of the last favorite row of its id |
| `Favorites.EntryShowsMacro` | custom_components/sofabaton_x1s/hub.py:2290-2382 | without one it shows the last macro row |
| `Favorites.EntryShowsNothing` | custom_components/sofabaton_x1s/hub.py:2290-2382 | without either it shows nothing known |
| `Favorites.SortSorts` | custom_components/sofabaton_x1s/hub.py:2343 | hub entries come in slot order |
| `Favorites.SortKeeps` | custom_components/sofabaton_x1s/hub.py:2343 | the sort loses and invents nothing |
| `Favorites.SortIsStable` | custom_components/sofabaton_x1s/hub.py:2343 | entries of one slot keep their order |
| `Favorites.HubEntriesFirst` | custom_components/sofabaton_x1s/hub.py:2341-2380 | hub entries first by slot, then missing ids in increasing order |
| `Favorites.DescribedInSlotOrderIff` | custom_components/sofabaton_x1s/hub.py:2359-2380 | the described list is in slot order if and only if its hub entries are and the highest slot plus the number of missing ids fits in a byte; then and only then backfilled slots count on from it |
| `Favorites.HubEntriesInSlotOrder` | custom_components/sofabaton_x1s/hub.py:2341-2358 | with byte-sized hub slots the hub entries always are |
| `Favorites.ViewsKeepOrder` | custom_components/sofabaton_x1s/hub.py:2798-2858 | a view is the list at increasing places, exactly those of its kind |
| `Favorites.ViewsAreDisjoint` | custom_components/sofabaton_x1s/hub.py:2798-2858 | whatever the order, no id is in both views: favorites with a command in one, macros no favorite shadows in the other |

## Left out

- Activity labels of a record: they only serve an error message before a deploy.
- The migration of a store without a device list (a single-record layout): a one-way conversion on first load.
- Non-dictionary entries in a stored snapshot: a snapshot is a list of slots.
- Keys handed to the ownership write are taken as already normalized, as the matching produces them.
- Partial effects within one step other than the power step: a replayed member list or a rewritten key row is taken as one write.
- Why a step goes unanswered (a missing power macro, a timeout, a rejected write): one unacknowledged reply stands for all of it.
- Two-phase interleavings of event edits during a running sync: a sync is one step in the store's runs.
- Payload keys of command records and the `command_payload` step: the integration's baselines and configurations carry none.
- The planner without a deployed expansion: the integration always passes one.
- Favorite ids, favorite display order and the reorder step of a deploy: a favorite is the pair of device and command.
- Input ordinal 255 in a baseline: an ordinal is zero or a position in the input list.
- Hub-side cascade of `command_delete`: proved never to be planned (`InplaceSync.NoRecordIsDeleted`).
- In-place sync and replace path see the hub at different detail (one managed device with its references; devices and memberships); `ReplacePath.Deployer` holds both views side by side.
- Gates that only read the hub (reachable catalogue, label validation before a deploy, listener start): they end a sync before any write.
- Progress texts, dispatcher signals, cache refreshes and persistence around every operation.
- Subscriber tokens of the registry and of the log buffer: the registry model keeps the notices every subscriber would get, in order.
- Fields of an operation other than kind, entry, status, bundle and download flag; kind and entry are never overwritten by an update.
- The last-hub-event feed and the button priming beside the hooks.
- Replacing the proxy of a hub: the hook runs cover the lifetime of one proxy.
- Actions carried out by a hook or a callback, the hub and activity event action tables, callbacks in the old format that name a label.
- Labels of favorites: resolving one is a parameter.
- Wire frames, decoders, backup and restore, discovery, config flow, entities and frontend.
- Store.StepKeepsListValid: the model of key creation stops when the drawn tokens run out, where the code draws again.
