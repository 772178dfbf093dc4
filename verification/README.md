# TEEIO Validator: a Dafny model

TEEIO Validator sets up PCIe and CXL link encryption (IDE) between a root port and a device, refreshes
the keys while traffic flows, and runs test suites described in an INI file. This project models its
hard parts in Dafny and proves what they keep.

**Keys of PCIe IDE streams.** `Kcbar` is the root port's register block, an array of dwords whose layout
depends on its capability register; every register access is proved to change one piece of an abstract
view. `SlotAlloc` is the allocator of key slots. `KeyProtocol` gives setup and key switch as lists of
steps against a device that may answer, lose or refuse any message; `KeyManager` is the code on the
registers, proved equal to those lists. `StreamSafety`, `KeyAgreement` and `Fleet` hold the main
results: several streams never touch each other's live keys at any step of any run, both ends agree on
the keys of every path in use at every point of a switch, and the switch is make before break (section
6.33.3 of PCIe Base Specification 6.1). `FailedRefresh` says exactly what a stream whose refresh failed
keeps, and `Opening` when a setup may rely on what was set aside for it. `KeyRefresh` is the refresh
loop without bound, with the exact condition under which each refresh succeeds. `IdeEcap` is the IDE
extended capability (section 7.9.26) and the walkers over it.

**INI front end.** `IniText` (lines, blanks, the grammar of header and entry lines), `IniFile` (the
reversed list and what a file means) and `IniParser` (the parser on its line buffer). `Separated`,
`DecimalList` and `SwitchConn` are the list and path parsers and their printers.

**Runner.** `TestCase` is the life of one case, `TestRunner` groups and suites, `TestResults` the result
tree with its three levels of counters.

**Transfers.** `Doe` is the mailbox of section 6.30, `TspReport` the reassembly of CXL TSP reports,
`Measurement` the collection of SPDM measurements, and `CxlKey` the keys and IVs of CXL IDE.

`Words` defines machine words and two small shared types. `Veil` is a proof device: it hides the body of
a predicate from the verifier where only its name matters.

Conventions: a failed assertion of the source stops it for good, so what it asserts is a precondition
here. The device, the operator and the callbacks are arguments: a sequence or a function of answers over
which everything is universally quantified. 32-bit registers are integers below 2^32 whose fields are
taken apart with division and remainder; 8- and 16-bit truncation is written out where the source has
it.

Where the code does not do what it is for, the model follows the code; the first lemma named below gives
an input that shows it, the others say exactly when the code is right:

- `IdeEcap.CheckMisses`, `IdeEcap.CheckExactExactlyWhen`: the check whether a stream id is in use starts
  its walk over the selective blocks four bytes early when there are no link blocks.
- `IdeEcap.SetupSpills`, `IdeEcap.SetupInsideExactly`: setting up a selective block that has no address
  block writes behind it.
- `Opening.OpenedTwice` and `Opening.RefreshTakesTriple`, `Opening.SafeExactlyWhenStillSetAside`: a
  setup does not look again whether the stream and the slots that were set aside for it are still there.
- `SlotAlloc.NarrowPortOverrun`, `SlotAlloc.TriplesInBothExactly`, `Kcbar.RxKeyOverrun`: the allocator
  looks at the number of Tx slots only.
- `FailedRefresh.OldKeysLost`, `FailedRefresh.PathSurvivesExactly`,
  `FailedRefresh.InUseSurvivesExactly`: the allocator counts the slots of selected key sets only, while
  a device may still use others.
- `CxlKey.RefusedKeyStarts`, `CxlKey.SetupAgreesExactly`, `CxlKey.StartExactly`: the CXL setup does not
  look at the status in the acknowledgement of a key. (The PCIe setup does.)
- `Doe.FlickeringSendsNothing`, `Doe.SendExact`, `Doe.FlickeringReceivesNothing`, `Doe.ReceiveExact`: an
  error bit that vanishes by itself.
- `TspReport.EmptyPortionsNeverEnd`, `TspReport.ForeverExactly`: empty portions.
- `TspReport.LargeReports`, `TspReport.FaithfulExactly`, `TspReport.FullPortionsExactly`: reports with a
  portion that begins at 65536 or later.
- `TestRunner.FirstConfigurationOnly`, `TestRunner.PlanCarriedOutExactly`: a second configuration of a
  suite would run no group. Suites are built with one.
- `DecimalList.TopBitLost`, `DecimalList.RoundTripExactly`: the printer shows values as signed numbers.
- `DecimalList.ZeroBehindTheEnd`, `DecimalList.PrintArrayToBuffer`: its size check forgets the zero that
  ends the text.
- `SwitchConn.LongPartCopied`, `SwitchConn.LongestExactly`: the path parser copies every part into a
  line buffer of 512 bytes without looking at its length.
- `IniFile.BadValueFrees`, `IniFile.HeadIsCurrent`: an entry with a good name and a bad value leaves a
  freed node in the list.

Four results say it in one lemma. `Doe.AcknowledgedExactly`: a data object whose header claims one dword
is read as two. `TspReport.InsideExactly`: the report buffer is only as safe as the size the caller
passes, and the only caller passes an uninitialised one. `KeyRefresh.StopsMissExactly`: after a failed
refresh the stops name the old key set and miss the paths that have moved.
`TestResults.VerdictsAgreeExactly` is of another kind: the printed verdict could differ from the judged
one only if a separator were recorded as passed or failed, and the source records every separator as not
tested.

The comment at the head of the INI parser says that a line that cannot be read makes the file invalid;
the code stores the outcome of a line as a status that is never an error, so such lines are skipped, and
the model skips them.

## Model

| member | source | states |
|---|---|---|
| `Kcbar.LayoutDisjoint` | teeio-validator/include/intel_keyp.h:178-212 | for every number of streams and slots, each stream register, key slot and IV slot lies inside the register block and no two share a dword |
| `Kcbar.LayoutCovers` | teeio-validator/include/intel_keyp.h:178-212 | conversely every dword of the block belongs to one of these pieces |
| `Kcbar.FitsMapping` | teeio-validator/library/pcie_ide_lib/intel_rp_pcie.c:192-214 | the mapping of 1024 bytes holds the whole block if and only if nine dwords a stream and ten a slot add up to at most 255 |
| `Kcbar.StreamRegisters` | teeio-validator/include/intel_keyp.h:178-190 | the dword of the mapping at which each register of a stream block is found |
| `Kcbar.TxSlotPlace` | teeio-validator/include/intel_keyp.h:178-212 | the dwords at which a Tx key and IV slot are found: behind the stream blocks, all keys before all IVs |
| `Kcbar.RxSlotPlace` | teeio-validator/include/intel_keyp.h:178-212 | the same for an Rx slot: behind all of the Tx bank |
| `Kcbar.RxKeyOverrun` | teeio-validator/library/pcie_ide_lib/intel_rp_pcie.c:31-65 | the store of an Rx key at the computed place leaves every Rx IV slot alone, whatever the key, if and only if its slot number is in the Rx bank or so far beyond that even the IV slots end before |
| `Kcbar.Packed` | teeio-validator/include/intel_keyp.h:164-176 | an index register is determined by its three slot numbers and reserved bits |
| `Kcbar.SlotIndexFields` | teeio-validator/library/pcie_ide_lib/intel_rp_pcie.c:102-120 | writing one slot number into an index register leaves the other two and the reserved bits alone |
| `Kcbar.PrimeFields` | teeio-validator/library/pcie_ide_lib/pcie_ide.c:1224-1271 | priming a key set sets its prime bit, clears the other one's, and leaves the selection and the low byte alone |
| `Kcbar.SelectFields` | teeio-validator/library/pcie_ide_lib/pcie_ide.c:1273-1295 | selecting a key set changes the selection and no prime bit |
| `Kcbar.OverwritePiece` | teeio-validator/library/helperlib/pcie_helper.c:259-268 | overwriting one piece of the block leaves the contents of every other piece as they were |
| `Kcbar.StoreStreamReg` | teeio-validator/library/pcie_ide_lib/intel_rp_pcie.c:24-29 | storing a dword at a computed place changes exactly that register of that stream in the abstract view |
| `Kcbar.StoreSlot` | teeio-validator/library/pcie_ide_lib/intel_rp_pcie.c:31-65 | copying a key and an IV to their computed places changes exactly that slot of that bank in the abstract view |
| `Kcbar.RegisterBlock.ReadStreamReg` | teeio-validator/library/pcie_ide_lib/intel_rp_pcie.c:24-29 | reads the abstract register it names |
| `Kcbar.RegisterBlock.WriteStreamReg` | teeio-validator/library/pcie_ide_lib/intel_rp_pcie.c:24-29 | writes the abstract register it names and nothing else |
| `Kcbar.RegisterBlock.RegMemcpyDw` | teeio-validator/library/helperlib/pcie_helper.c:259-268 | copies dword by dword; the rest of the mapping stays |
| `Kcbar.RegisterBlock.SlotPointers` | teeio-validator/library/pcie_ide_lib/intel_rp_pcie.c:40-61 | stepping over the stream blocks and the banks ends at the key and IV slot of the opposite direction, whose dwords are given outright |
| `Kcbar.RegisterBlock.KcbarSetKeySlot` | teeio-validator/library/pcie_ide_lib/intel_rp_pcie.c:31-65 | changes one slot of the bank that serves the device's direction, and nothing else |
| `Kcbar.RegisterBlock.CfgRootportIdeKeys` | teeio-validator/library/pcie_ide_lib/intel_rp_pcie.c:67-121 | stores key and IV in the addressed slot of the opposite bank, and changes exactly one of the four index registers: tx0 for device Rx and key set 0, tx1 for Rx and 1, rx0 for Tx and 0, rx1 for Tx and 1; in it, the field of the sub-stream becomes the slot number and all else stays |
| `Kcbar.RegisterBlock.PrimeRpIdeKeySet` | teeio-validator/library/pcie_ide_lib/pcie_ide.c:1224-1271 | sets bit 8 for key set 0 and bit 16 for key set 1, and clears the other, in the Tx control register for device Rx and the Rx control register for device Tx; no other register changes |
| `Kcbar.RegisterBlock.SetRpIdeKeySetSelect` | teeio-validator/library/pcie_ide_lib/pcie_ide.c:1273-1295 | the lowest two bits of the stream's Tx control register become 1 for key set 0 and 2 for key set 1; nothing else changes |
| `Kcbar.RegisterBlock.EnableIdeStreamInKcbar` | teeio-validator/library/pcie_ide_lib/intel_rp_pcie.c:350-364 | sets or clears the enable bit of that stream only |
| `Kcbar.RegisterBlock.InitializeKcbarRegisters` | teeio-validator/library/pcie_ide_lib/intel_rp_pcie.c:329-348 | clears the controls and the four index registers of one stream, disables it and stores its stream id in bits 24 to 31 |
| `SlotAlloc.BitTested` | teeio-validator/library/pcie_ide_lib/pcie_ide.c:346-375 | setting a bit of the eight-bit usage map changes that bit only |
| `SlotAlloc.ScanStream` | teeio-validator/library/pcie_ide_lib/pcie_ide.c:324-378 | adds to the map exactly the triple of an enabled stream, read from tx0 or tx1 as its Tx control register selects |
| `SlotAlloc.CollectUsage` | teeio-validator/library/pcie_ide_lib/pcie_ide.c:324-378 | bit j of the map is set if and only if some enabled stream uses triple j |
| `SlotAlloc.PcieIdeAllocSlotIds` | teeio-validator/library/pcie_ide_lib/pcie_ide.c:310-400 | succeeds if and only if there are at most 24 slots and a free triple, and then returns the lowest free one; on failure the caller's slots stay |
| `SlotAlloc.TriplesInBothExactly` | teeio-validator/library/pcie_ide_lib/pcie_ide.c:328-399 | every triple that can be handed out on any port with given counts has its slots in both banks if and only if there are no more Tx than Rx slots, or the streams are too few to reach the difference, or the allocator refuses the counts |
| `SlotAlloc.NarrowPortOverrun` | teeio-validator/library/pcie_ide_lib/pcie_ide.c:328-399 | a register block with six Tx and three Rx slots on which the allocator hands out triple 1 and the store of its first Rx key changes the first Rx IV slot |
| `KeyProtocol.StepDone` | teeio-validator/library/pcie_ide_test_lib/test_case/ide_km_common.c:61-192 | a step that succeeds has its effect: the key reached through the index register is the reversal of what the device accepted, the prime bits, the selection, the device's choice of key set |
| `KeyProtocol.StepUndoesNothing` | teeio-validator/library/pcie_ide_test_lib/test_case/ide_km_common.c:61-192 | no later step, successful or not, undoes the effect of another |
| `KeyProtocol.ExecDone` | teeio-validator/library/pcie_ide_test_lib/test_case/ide_km_common.c:229-449 | as long as nothing failed, everything attempted so far is done and still done |
| `KeyProtocol.ExecStopped` | teeio-validator/library/pcie_ide_test_lib/test_case/ide_km_common.c:229-618 | nothing runs after the first failure |
| `KeyProtocol.ExecSucceedsExactly` | teeio-validator/library/pcie_ide_test_lib/test_case/ide_km_common.c:229-618 | a run succeeds if and only if every query, KEY_PROG, K_SET_GO and final check in it is answered well |
| `KeyProtocol.KeySent` | teeio-validator/library/pcie_ide_test_lib/test_case/ide_km_common.c:61-141 | the key sent is the number drawn, or in every dword 0x22222222 for Rx and 0x11111111 for Tx; the device keeps it with the IV (0, 1) if the message took effect, the root port gets its reversal with (1, 0) if it succeeded; nothing else changes in the device, and nothing at all in the root port on failure |
| `KeyProtocol.OtherStepsExactly` | teeio-validator/library/pcie_ide_test_lib/test_case/ide_km_common.c:143-192 | what every other step changes in the device and in the enable bit of the root port |
| `KeyProtocol.ProcedureSteps` | teeio-validator/library/pcie_ide_test_lib/test_case/ide_km_common.c:256-618 | setup and switch both perform their steps in the one fixed order, whether or not they stop before the K_SET_GOs; how many they are, and that the check of the stream is the last |
| `KeyProtocol.MakeBeforeBreak` | teeio-validator/library/pcie_ide_test_lib/test_case/ide_km_common.c:271-609 | on every run, complete or cut short: the root port's selection changes only when all six keys are in place on both sides, both directions are primed and the device receives with the new set; the device transmits with it only after that; nothing is enabled before all six K_SET_GOs |
| `StreamSafety.StepSafe` | teeio-validator/library/pcie_ide_test_lib/test_case/ide_km_common.c:498-609 | no step but the selection of its own stream changes the selection, indices or slots that an enabled stream uses |
| `StreamSafety.StepKeepsDisjoint` | teeio-validator/library/pcie_ide_test_lib/test_case/ide_km_common.c:498-609 | every step keeps the enabled streams on pairwise disjoint aligned slot triples, the same in both banks |
| `StreamSafety.ExecBetween` | teeio-validator/library/pcie_ide_test_lib/test_case/ide_km_common.c:229-618 | the triples are disjoint between any two steps of a run, and before the selection the new triple is still unused |
| `StreamSafety.RunSafe` | teeio-validator/library/pcie_ide_test_lib/test_case/ide_km_common.c:229-618 | at every step of every run, including every early return, triples stay disjoint and every enabled stream keeps its live keys, but for the step that moves the stream's own selection |
| `StreamSafety.SetupPlaces` | teeio-validator/library/pcie_ide_test_lib/test_case/ide_km_common.c:229-449 | a complete setup leaves the stream enabled on its triple: the Tx control register selects the key set, and the slots of the triple are in tx0 and rx0 for key set 0, in tx1 and rx1 for key set 1 |
| `StreamSafety.SwitchPlaces` | teeio-validator/library/pcie_ide_test_lib/test_case/ide_km_common.c:498-618 | the same after a complete switch |
| `StreamSafety.SetupSafeExactlyWhenFree` | teeio-validator/library/pcie_ide_test_lib/test_case/ide_km_common.c:229-449 | a complete setup of a disabled stream leaves the triples disjoint if and only if no other stream uses its triple |
| `KeyAgreement.SwitchKeepsTraffic` | teeio-validator/library/pcie_ide_test_lib/test_case/ide_km_common.c:498-609 | at every point of a switch, complete or cut short, both ends agree on the keys of every path in use |
| `KeyAgreement.MovedExactly` | teeio-validator/library/pcie_ide_test_lib/test_case/ide_km_common.c:560-609 | at any point of a run a path uses the new key set if its K_SET_GO was sent and took effect, and the old one otherwise |
| `KeyAgreement.SwitchAgrees` | teeio-validator/library/pcie_ide_test_lib/test_case/ide_km_common.c:452-618 | a complete switch ends with all six paths in agreement on the new key set |
| `KeyAgreement.SetupAgrees` | teeio-validator/library/pcie_ide_test_lib/test_case/ide_km_common.c:229-449 | a complete setup ends with the stream up and all six paths in agreement |
| `KeyManager.SetupParts` | teeio-validator/library/pcie_ide_test_lib/test_case/ide_km_common.c:229-449 | the step list of a setup is the query, the programming, the K_SET_GOs with the selection between them, the enables and the final check, each only if all before succeeded |
| `KeyManager.SwitchParts` | teeio-validator/library/pcie_ide_test_lib/test_case/ide_km_common.c:498-618 | the same for a switch |
| `KeyManager.ExecConcat` | teeio-validator/library/pcie_ide_test_lib/test_case/ide_km_common.c:229-618 | running one list of steps after another is running their concatenation |
| `KeyManager.Manager.PcieConstructRpKeys` | teeio-validator/library/helperlib/utils.c:82-96 | the loop over dwords reverses their order |
| `KeyManager.Manager.IdeKmKeyProg` | teeio-validator/library/pcie_ide_test_lib/test_case/ide_km_common.c:61-141 | draws or fixes the key, sends it, and on success stores its reversal in the root port |
| `KeyManager.Manager.SetupIdeStream` | teeio-validator/library/pcie_ide_test_lib/test_case/ide_km_common.c:229-449 | the code on the register block does what the step list of a setup says, early returns included; it succeeds if and only if all steps that ask are answered well |
| `KeyManager.Manager.SwitchTo` | teeio-validator/library/pcie_ide_test_lib/test_case/ide_km_common.c:498-618 | the code on the register block does what the step list of a switch says, early returns included; it succeeds if and only if all steps that ask are answered well |
| `KeyRefresh.FlippedParity` | teeio-validator/library/pcie_ide_test_lib/test_case/test_case_full_keyrefresh.c:88-137 | n refreshes alternate between the two key sets |
| `KeyRefresh.ClosedExactly` | teeio-validator/library/pcie_ide_test_lib/test_case/ide_km_common.c:480-493 | the operator's closings disable exactly the streams named |
| `KeyRefresh.RefreshTest.AllocSlots` | teeio-validator/library/pcie_ide_test_lib/test_case/ide_km_common.c:480-493 | retries the allocation while the operator closes other streams; finds slots if and only if there are some at once or after some of the closings before the first quit, and then returns the lowest triple that is free at that point |
| `KeyRefresh.RefreshTest.IdeKeySwitchTo` | teeio-validator/library/pcie_ide_test_lib/test_case/ide_km_common.c:452-618 | succeeds if and only if both ends are enabled, slots come free in time, and every KEY_PROG, K_SET_GO and the final check are answered well; from agreement it ends in agreement on the new set, or fails with the paths in use still in agreement and every path of the device on the old or the new set |
| `KeyRefresh.RefreshTest.Setup` | teeio-validator/library/pcie_ide_test_lib/test_case/test_case_full_keyrefresh.c:30-49 | does the steps of a setup; succeeds if and only if all that ask are answered well, and then the stream is in agreement on the test's key set |
| `KeyRefresh.RefreshTest.Run` | teeio-validator/library/pcie_ide_test_lib/test_case/test_case_full_keyrefresh.c:51-142 | carries out the commands one after the other, each on the world the one before it left, until the first stop or the first refresh that cannot succeed; at the head of every turn, for any number of turns, the key set in use is the initial one flipped once a refresh, and all six paths agree; a failed refresh leaves the key set variable and the agreement of the paths in use intact, and every path on that key set or the other |
| `KeyRefresh.RefreshTest.Teardown` | teeio-validator/library/pcie_ide_test_lib/test_case/test_case_full.c:161-247 | both ends are disabled whatever the device answers; only this stream changes; the device no longer uses a path exactly if it used it with the test's key set and the stops up to its own all succeeded |
| `KeyRefresh.StopsMissExactly` | teeio-validator/library/pcie_ide_test_lib/test_case/test_case_full.c:195-243 | after a failed refresh the six stops miss a path if and only if its K_SET_GO for the new key set was sent and took effect |
| `Fleet.LowestFree` | teeio-validator/library/pcie_ide_lib/pcie_ide.c:380-399 | the lowest triple that is not in use |
| `Fleet.ApplyConsistent` | teeio-validator/library/pcie_ide_test_lib/test_case/ide_km_common.c:229-618 | opening a disabled stream on any free triple, refreshing or closing any stream, with any outcome, keeps the triples disjoint, all six paths of running streams in agreement, all paths of failed streams that use the selected key set in agreement, and the live keys of all other streams |
| `Fleet.RunsSafe` | teeio-validator/library/pcie_ide_test_lib/test_case/ide_km_common.c:229-618 | over whole runs with any number of streams, each opened while disabled and on any triple that is free then: every reachable state is consistent, and at every single step of the next operation the triples are disjoint and every enabled stream keeps its live keys |
| `FailedRefresh.FailedSwitch` | teeio-validator/library/pcie_ide_test_lib/test_case/ide_km_common.c:498-618 | a switch that fails before the selection leaves selection and device transmission on the old keys; one that fails later has all new keys in place and selected |
| `FailedRefresh.PathSurvivesExactly` | teeio-validator/library/pcie_ide_lib/pcie_ide.c:346-375 | after a failed refresh, the agreement of one sub-stream survives every run of operations on other streams if and only if there are no other streams or the device transmits on it with the selected key set: the allocator counts selected slots only |
| `FailedRefresh.InUseSurvivesExactly` | teeio-validator/library/pcie_ide_lib/pcie_ide.c:346-375 | all paths in use survive if and only if there are no other streams, or the refresh stopped before the selection moved, or the device transmits with the new key set on every sub-stream |
| `FailedRefresh.OldKeysLost` | teeio-validator/library/pcie_ide_lib/pcie_ide.c:346-375 | a run from an idle port: open, a refresh the device refuses to transmit with, another stream opened on the old triple; the enabled stream can no longer be received |
| `FailedRefresh.SettledSurvives` | teeio-validator/library/pcie_ide_test_lib/test_case/ide_km_common.c:452-618 | a path that uses the selected key set stays in agreement over any run of operations on other streams |
| `Opening.SafeExactlyWhenStillSetAside` | teeio-validator/library/pcie_ide_test_lib/test_config/test_config_common.c:154-180 | for any stream and triple that were set aside at any time: the reset and a complete setup keep the triples disjoint and the live keys of all streams enabled before, at every step, if and only if that stream was still disabled before the reset and no other stream used that triple |
| `Opening.SafeIfStillSetAside` | teeio-validator/library/pcie_ide_test_lib/test_config/test_config_common.c:154-180 | that direction for every setup, complete or cut short |
| `Opening.OpenedTwice` | teeio-validator/library/pcie_ide_lib/pcie_ide.c:761-823 | on any port without enabled streams two openings are both given stream 0 and triple 0; the second setup succeeds, with the triple free for it, and the first device, which was in agreement, is not any more |
| `Opening.RefreshTakesTriple` | teeio-validator/library/pcie_ide_lib/pcie_ide.c:761-823 | a run from an idle port: while stream 1 and triple 1 are set aside, stream 0 refreshes and moves to triple 1; the setup of stream 1 succeeds and two enabled streams share the triple |
| `IdeEcap.BlocksApart` | teeio-validator/include/pcie.h:24-225 | for any block counts and numbers of address blocks the blocks of the capability lie in order, inside the space, without overlap |
| `IdeEcap.SameLayout` | teeio-validator/include/pcie.h:24-225 | changes that leave the capability registers alone move no block |
| `IdeEcap.CapabilityFields` | teeio-validator/include/pcie.h:24-43 | whether there are link and selective blocks, and how many, by the fields of the capability register |
| `IdeEcap.OtherBlocksKept` | teeio-validator/library/pcie_ide_lib/pcie_ide.c:1141-1179 | writes inside one block leave the layout and every other block's enable bit as they were |
| `IdeEcap.SetupKeepsOthers` | teeio-validator/library/pcie_ide_lib/pcie_ide.c:1141-1179 | setting up a selective block with an address block, or a link block, touches no other block |
| `IdeEcap.SetupInsideExactly` | teeio-validator/library/pcie_ide_lib/pcie_ide.c:1141-1179 | the writes of a setup stay inside the block, for all values, if and only if it is a link block or has an address block |
| `IdeEcap.SetupSpills` | teeio-validator/library/pcie_ide_lib/pcie_ide.c:1159-1176 | without an address block of its own a setup writes its second address register into the control register of the block that follows, if one does |
| `IdeEcap.SearchAdvances` | teeio-validator/library/pcie_ide_lib/pcie_ide.c:406-484 | once the block a search found is enabled and no other changed, the next search finds a block with a greater number or none |
| `IdeEcap.SearchSetupSearch` | teeio-validator/library/pcie_ide_lib/pcie_ide.c:406-484 | the writes of setting up and enabling the block a search found make the next search find a greater number or none |
| `IdeEcap.FoundIdNames` | teeio-validator/library/pcie_ide_lib/pcie_ide.c:445-475 | the eight-bit number a search returns names the block it found exactly if that number is below 256 |
| `IdeEcap.EnableKeeps` | teeio-validator/library/pcie_ide_lib/pcie_ide.c:1297-1316 | changing one enable bit touches no other block |
| `IdeEcap.ConfigSpace.FindFreeBlock` | teeio-validator/library/pcie_ide_lib/pcie_ide.c:406-484 | finds the lowest block of the wanted kind that is not enabled, if and only if there is one |
| `IdeEcap.ConfigSpace.FindFreeStream` | teeio-validator/library/pcie_ide_lib/pcie_ide.c:487-509 | finds the lowest disabled KCBAR stream, if and only if there is one |
| `IdeEcap.ConfigSpace.FindFreeRpStreamIndexAndIdeId` | teeio-validator/library/pcie_ide_lib/pcie_ide.c:406-514 | both of them or failure |
| `IdeEcap.ConfigSpace.GetIdeRegBlockOffset` | teeio-validator/library/pcie_ide_lib/pcie_ide.c:1000-1048 | with one address block in every block stepped over, the offset is that of the block with this number, the same the search inspects |
| `IdeEcap.ConfigSpace.EnableIdeStreamInEcap` | teeio-validator/library/pcie_ide_lib/pcie_ide.c:1297-1316 | changes the enable bit of one block and nothing else |
| `IdeEcap.ConfigSpace.IsIdeEnabled` | teeio-validator/library/pcie_ide_lib/pcie_ide.c:1347-1356 | the enable bit of the block with this number |
| `IdeEcap.ConfigSpace.SetupIdeEcapRegs` | teeio-validator/library/pcie_ide_lib/pcie_ide.c:1141-1179 | writes the control register and, of a selective block, the two requester-id and the three address registers of the block with this number, each to its own dword, and nothing else |
| `IdeEcap.SetupWrites` | teeio-validator/library/pcie_ide_lib/pcie_ide.c:1154-1176 | the dword in which each value of a setup ends up |
| `IdeEcap.ConfigSpace.TakeAndSearch` | teeio-validator/library/pcie_ide_lib/pcie_ide.c:406-484 | search, set up, enable and search again, call by call: the second number is greater, and missing exactly if no block is left |
| `IdeEcap.CheckStreamIdUsed` | teeio-validator/library/pcie_ide_lib/pcie_ide.c:671-731 | what the check computes: some enabled KCBAR stream, or some block at the places its walk visits, carries the stream id |
| `IdeEcap.WalkStreams` | teeio-validator/library/pcie_ide_lib/pcie_ide.c:677-686 | true exactly if an enabled KCBAR stream carries the stream id |
| `IdeEcap.WalkLinks` | teeio-validator/library/pcie_ide_lib/pcie_ide.c:702-713 | true exactly if an enabled link block carries the stream id; otherwise ends at the first selective block |
| `IdeEcap.WalkSelective` | teeio-validator/library/pcie_ide_lib/pcie_ide.c:715-728 | true exactly if one of the stops of the walk carries the stream id |
| `IdeEcap.CheckExact` | teeio-validator/library/pcie_ide_lib/pcie_ide.c:671-731 | with link blocks, or without selective ones, the check is true exactly if some enabled block carries the stream id |
| `IdeEcap.CheckMisses` | teeio-validator/library/pcie_ide_lib/pcie_ide.c:700-717 | without link blocks the walk starts four bytes early: in a configuration space of 4096 bytes it misses a stream id in use |
| `IdeEcap.CheckExactExactlyWhen` | teeio-validator/library/pcie_ide_lib/pcie_ide.c:671-731 | the check is right about every configuration space of 4096 bytes with a given capability register if and only if that has link blocks or no selective ones, or announces more than fits |
| `IniText.LineShape` | teeio-validator/teeio_validator/ide_test_ini.c:501-558 | a line has breaks only in its last two bytes and ends with one unless it is the whole rest |
| `IniText.LineLengthAgain` | teeio-validator/teeio_validator/ide_test_ini.c:1146-1177 | cut off behind its end the text begins with the same line, so the second attempt fits |
| `IniText.LinesPartition` | teeio-validator/teeio_validator/ide_test_ini.c:1127-1180 | the lines of a file concatenate to the file, and each is non-empty with breaks only in its last two bytes |
| `IniText.TrimSplits` | teeio-validator/teeio_validator/ide_test_ini.c:569-646 | trimming takes all blanks off both ends and nothing else |
| `IniText.TrimUnique` | teeio-validator/teeio_validator/ide_test_ini.c:569-646 | and that determines the result |
| `IniText.ValuesAreNames` | teeio-validator/teeio_validator/ide_test_ini.c:403-413 | a value that is a GUID is a name already, so the second test never decides |
| `IniText.EntryLinesExactly` | teeio-validator/teeio_validator/ide_test_ini.c:812-985 | a line is read as `name = value` if and only if it is that entry written out with blanks and an optional remark |
| `IniText.SectionLinesExactly` | teeio-validator/teeio_validator/ide_test_ini.c:705-797 | a line is read as a header if and only if it is a bracketed name with blanks, whatever follows the bracket |
| `IniFile.HeadIsCurrent` | teeio-validator/teeio_validator/ide_test_ini.c:812-985 | the list is empty exactly before the first header; it holds a freed node exactly if some entry under a header has a good name and no good value; otherwise its head carries the current section |
| `IniFile.BadValueFrees` | teeio-validator/teeio_validator/ide_test_ini.c:952-967 | the lines `[a]` and `b=$` leave a freed node in the list |
| `IniFile.LookupRefines` | teeio-validator/teeio_validator/ide_test_ini.c:1050-1082 | for every well-formed file a lookup in the reversed list finds the value of the last line that sets the name below a header of the section, and fails exactly if there is none |
| `IniFile.RemarksConcat` | teeio-validator/teeio_validator/ide_test_ini.c:648-693 | the list of remarks holds the texts of the remark lines, newest first |
| `IniParser.FileAnswers` | teeio-validator/teeio_validator/ide_test_ini.c:1098-1313 | the same from the bytes of a file to the answer of a lookup |
| `IniParser.ProfileGetLine` | teeio-validator/teeio_validator/ide_test_ini.c:501-558 | copies the first line and clears the rest of the buffer if it fits; otherwise reports its length and writes nothing |
| `IniParser.ProfileTrim` | teeio-validator/teeio_validator/ide_test_ini.c:569-646 | trims in place: the trimmed text ends up in front and no byte outside the range changes |
| `IniParser.NextLine` | teeio-validator/teeio_validator/ide_test_ini.c:1127-1177 | the next line, in a new buffer when the old one is too small; the second attempt succeeds |
| `IniParser.IniContext.ProfileGetSection` | teeio-validator/teeio_validator/ide_test_ini.c:705-797 | prepends a header node or skips the line |
| `IniParser.IniContext.ProfileGetEntry` | teeio-validator/teeio_validator/ide_test_ini.c:812-985 | prepends an entry under the section of the head node, or a freed node, or skips the line; trimming the name in place does not disturb the value |
| `IniParser.IniContext.PreProcessDataFile` | teeio-validator/teeio_validator/ide_test_ini.c:1098-1228 | the lists built are those of the lines of the whole file; the loop terminates |
| `IniParser.IniContext.OpenIniFile` | teeio-validator/teeio_validator/ide_test_ini.c:1241-1279 | refuses exactly the empty file; bad lines never stop the parse |
| `IniParser.IniContext.GetString` | teeio-validator/teeio_validator/ide_test_ini.c:1050-1082 | the first matching node of the list |
| `Doe.ControlWords` | teeio-validator/library/spdmlib/pci_doe.c:125-137 | abort and go set their own bit, clear the other's and keep the rest |
| `Doe.AwaitExactly` | teeio-validator/library/spdmlib/pci_doe.c:177-213 | a polling loop ends in the first round that sees what it waits for or an error, and times out exactly if no round does |
| `Doe.UnreadySendsNothing` | teeio-validator/library/spdmlib/pci_doe.c:139-235 | a send that times out or is stopped by an error writes no dword and no go |
| `Doe.SendExactly` | teeio-validator/library/spdmlib/pci_doe.c:139-235 | in terms of the status register alone: a non-empty request is sent with success if and only if the first of the timeout / 30 + 1 rounds that is not busy or sees the error bit exists and is followed by a clear error bit; it is delivered, whatever the verdict, if and only if that round was not busy |
| `Doe.SendExact` | teeio-validator/library/spdmlib/pci_doe.c:139-235 | a successful send has delivered the request once, in order, followed by go, if and only if it was not stopped by an error that had vanished at the next poll; always when the error bit lasts until an abort |
| `Doe.FlickeringSendsNothing` | teeio-validator/library/spdmlib/pci_doe.c:206-233 | to a device whose error bit vanishes by itself a send can succeed without sending anything |
| `Doe.ReceiveExactly` | teeio-validator/library/spdmlib/pci_doe.c:238-364 | in terms of what the device shows alone: when a receive succeeds, when it fails, when it reports a buffer that is too small, and when the data object is in the buffer |
| `Doe.ReceiveExact` | teeio-validator/library/spdmlib/pci_doe.c:238-364 | a successful receive leaves exactly the data object in the buffer, reports its size and has acknowledged every dword once, if and only if it was not stopped by an error that had vanished at the next poll and the header does not claim a single dword |
| `Doe.FlickeringReceivesNothing` | teeio-validator/library/spdmlib/pci_doe.c:325-352 | from a device whose error bit vanishes by itself a receive can succeed with a stale buffer |
| `Doe.AcknowledgedExactly` | teeio-validator/library/spdmlib/pci_doe.c:280-324 | size and acknowledgements disagree only for an object that claims a single dword |
| `Doe.ReceiveInside` | teeio-validator/library/spdmlib/pci_doe.c:238-364 | no write past the given size, and a buffer that is too small is reported with the size needed |
| `Doe.Mailbox.SendMessage` | teeio-validator/library/spdmlib/pci_doe.c:139-235 | the polling loop and the writes do what the specification of a send says; they succeed, and deliver the request, exactly when the device lets them |
| `Doe.Mailbox.ReceiveMessage` | teeio-validator/library/spdmlib/pci_doe.c:238-364 | the polling loop and the reads into the buffer do what the specification of a receive says; they succeed, or refuse the buffer, exactly when the device lets them; length 0 stands for 2^18 dwords |
| `Doe.Mailbox.SendReceive` | teeio-validator/library/spdmlib/pci_doe.c:415-430 | a receive only after a successful send |
| `TspReport.Reassembled` | teeio-validator/library/cxl_tsp_test_lib/test_case/test_case_get_configuration_report_1.c:36-126 | a run that ends normally leaves the concatenation of the portions in the buffer and its length as the size, whatever the device sends |
| `TspReport.RunAssembles` | teeio-validator/library/cxl_tsp_test_lib/test_case/test_case_get_configuration_report_1.c:36-126 | after every round that does not fail, offset plus remainder is the total, inside the buffer, without wrap in 16 bits |
| `TspReport.RunExactly` | teeio-validator/library/cxl_tsp_test_lib/test_case/test_case_get_configuration_report_1.c:54-123 | whatever the device sends: the loop goes on, ends normally or fails exactly as the first reply does that is not accepted or leaves nothing missing |
| `TspReport.RoundsBounded` | teeio-validator/library/cxl_tsp_test_lib/test_case/test_case_get_configuration_report_1.c:123-126 | the remainder is what is missing, so fewer non-empty portions than bytes are taken while the loop runs |
| `TspReport.EmptyPortionsNeverEnd` | teeio-validator/library/cxl_tsp_test_lib/test_case/test_case_get_configuration_report_1.c:95-123 | for instance, a device that sends only empty portions: they fail a check but keep the loop running |
| `TspReport.ForeverExactly` | teeio-validator/library/cxl_tsp_test_lib/test_case/test_case_get_configuration_report_1.c:39-123 | against any endless device the loop runs forever if and only if from some round on, still running, it gets only well-formed empty portions that leave the same remainder (as long as nothing has come, any remainder that fits) |
| `TspReport.RequestsInside` | teeio-validator/library/cxl_tsp_test_lib/test_case/test_case_get_configuration_report_1.c:39-46 | every request asks, at the offset of what has come, for as many bytes as the host takes at once, or behind the first byte for as many as are missing if they are fewer; at least one, and inside the report |
| `TspReport.FaithfulExactly` | teeio-validator/library/cxl_tsp_test_lib/test_case/test_case_get_configuration_report_1.c:97-126 | a device that keeps to the rules, for any report that fits the buffer: the report arrives whole if and only if its last portion begins below 65536; the exchange fails exactly if it begins later and no portion begins at 65536; if one does, it ends normally with 65536 bytes missing |
| `TspReport.WrappedIsTruncated` | teeio-validator/library/cxl_tsp_test_lib/test_case/test_case_get_configuration_report_1.c:97-126 | what is in the buffer then: the rest behind the first 65536 bytes, taken for the whole report |
| `TspReport.FullPortionsExactly` | teeio-validator/library/cxl_tsp_test_lib/test_case/test_case_get_configuration_report_1.c:39-126 | the same for a device that sends all that is asked, in terms of report length and portion length alone |
| `TspReport.LargeReports` | teeio-validator/library/cxl_tsp_test_lib/test_case/test_case_get_configuration_report_1.c:108-123 | a report of 70000 bytes in portions of 6000 is refused; one of 66000 in portions of 4096 ends normally with the size 464 |
| `TspReport.GetConfigurationReport` | teeio-validator/library/cxl_tsp_test_lib/test_case/test_case_get_configuration_report_1.c:18-127 | the loop on the caller's buffer does what the rounds say, and sends one request a round, as long as the run goes on and no longer |
| `TspReport.InsideExactly` | teeio-validator/library/cxl_tsp_test_lib/test_case/test_case_get_configuration_report_1.c:97-123 | for a size that need not be that of the buffer: all copies stay inside the buffer, whatever the device sends in portions of a given length, if and only if the size is at most that of the buffer or the buffer has room for the farthest place a 16-bit offset and a portion reach |
| `TestResults.RecordConserves` | teeio-validator/library/helperlib/teeio_common.c:67-129 | recording keeps all three levels of counters in agreement with the lists |
| `TestResults.SuiteTotal` | teeio-validator/teeio_validator/ide_test.c:886-904 | the totals of a suite count every assertion recorded anywhere below it, once |
| `TestResults.TestSuiteCasesStatics` | teeio-validator/teeio_validator/ide_test.c:886-904 | computes these totals |
| `TestResults.TestCaseResult` | teeio-validator/library/helperlib/teeio_common.c:29-65 | failed if a check failed, passed if one passed and none failed, else not tested |
| `TestResults.VerdictsAgreeExactly` | teeio-validator/teeio_validator/ide_test.c:1012-1018 | the printed verdict is the judged one if and only if the separators do not tip it |
| `TestResults.VerdictsAgree` | teeio-validator/teeio_validator/ide_test.c:1012-1018 | they agree when separators are recorded as not tested |
| `TestCase.CaseInOrder` | teeio-validator/teeio_validator/ide_test.c:668-734 | for any answers the callbacks of a case come in the one order, none twice |
| `TestCase.EnabledExactly` | teeio-validator/teeio_validator/ide_test.c:683-709 | for any answers: the support checks begin if and only if the case is not skipped, the enables if and only if every support check succeeded, and the setup is called if and only if there is one and every enable succeeded |
| `TestCase.CheckedExactly` | teeio-validator/teeio_validator/ide_test.c:699-723 | the configuration is checked if and only if that is required, every enable succeeded, and the setup, if there is one, succeeded without asking to skip |
| `TestCase.ItemsInTurn` | teeio-validator/teeio_validator/ide_test.c:608-666 | in each of the four passes the next item has its turn if and only if the one before it succeeded |
| `TestCase.CaseBrackets` | teeio-validator/teeio_validator/ide_test.c:668-734 | for any answers: disabling and teardown happen if and only if all items were enabled, and the run if and only if, besides, the setup succeeded without asking to skip |
| `TestRunner.SuiteConserves` | teeio-validator/teeio_validator/ide_test.c:851-884 | at the end of a suite, whatever callbacks answer and record, every counter is the sum over the level below |
| `TestRunner.GroupOutline` | teeio-validator/teeio_validator/ide_test.c:739-792 | a group gets one result for each of its cases, in plan order, even if its setup failed |
| `TestRunner.PlanCarriedOutExactly` | teeio-validator/teeio_validator/ide_test.c:851-884 | every configuration gets a result for every planned case if and only if there is at most one configuration or nothing is planned |
| `TestRunner.FirstConfigurationOnly` | teeio-validator/teeio_validator/ide_test.c:851-884 | for any suite and answers the first configuration has a result for every planned case and every later one has none |
| `TestRunner.GroupBrackets` | teeio-validator/teeio_validator/ide_test.c:739-792 | the group's setup comes first; if it succeeds, all calls of all its cases follow, case by case, and then the teardown; otherwise its cases make no call |
| `TestRunner.CaseByCase` | teeio-validator/teeio_validator/ide_test.c:765-783 | every case gets a result behind the earlier ones, which stay; it is credited with what its own calls record and nothing else |
| `TestRunner.RecordedInOrder` | teeio-validator/library/helperlib/teeio_common.c:67-129 | every call contributes its records, in the order of the calls |
| `TestRunner.CallsOfPhases` | teeio-validator/teeio_validator/ide_test.c:608-734 | the callback that is called in each phase |
| `TestRunner.Runner.CountAssertion` | teeio-validator/library/helperlib/teeio_common.c:67-129 | appends the assertion and increments the three counters its result asks for |
| `TestRunner.Runner.DoRunTestConfig` | teeio-validator/teeio_validator/ide_test.c:608-666 | a pass over the configuration items that ends at the first failure |
| `TestRunner.Runner.DoRunTestCase` | teeio-validator/teeio_validator/ide_test.c:668-734 | makes the calls of the case's life and records what they record, nothing else |
| `TestRunner.Runner.DoRunTestGroup` | teeio-validator/teeio_validator/ide_test.c:739-812 | the loop over the cases does what the specification of a group says |
| `TestRunner.Runner.DoRunTestSuite` | teeio-validator/teeio_validator/ide_test.c:851-884 | the loops over configurations and groups do what the specification of a suite says |
| `Separated.FindCharInStr` | teeio-validator/library/helperlib/utils.c:35-54 | the first place of the character, or -1 |
| `Separated.SplitJoin` | teeio-validator/teeio_validator/ide_test_ini.c:1941-1974 | what was joined with a separator that no part contains is split into the same parts |
| `Separated.JoinSplit` | teeio-validator/teeio_validator/ide_test_ini.c:1941-1974 | and what was split is joined to the same text |
| `DecimalList.RoundTripExactly` | teeio-validator/library/helperlib/utils.c:510-576 | parsing what was printed for a non-empty array gives it back if and only if no value has its top bit set, and fails otherwise |
| `DecimalList.ParsedExactly` | teeio-validator/library/helperlib/utils.c:510-576 | a text is read as an array if and only if its non-empty parts between commas are the array's numbers in digits alone, at least one and no more than there is room for |
| `DecimalList.TopBitLost` | teeio-validator/teeio_validator/ide_test_ini.c:2348 | the list of 2^31 alone is printed and not read back |
| `DecimalList.PassesAgree` | teeio-validator/library/helperlib/utils.c:510-576 | the pass that counts and the pass that fills an array of that size agree |
| `DecimalList.PrintArrayToBuffer` | teeio-validator/teeio_validator/ide_test_ini.c:2332-2361 | prints the list if it passes the size check, and nothing otherwise; the bytes written, ending zeros included, are two more than the text, and stay inside the buffer exactly if no first part of the list with its comma fills it |
| `DecimalList.ZeroBehindTheEnd` | teeio-validator/teeio_validator/ide_test_ini.c:2344-2353 | a buffer that passes the check and is written one byte past its end |
| `DecimalList.GetUint32ArrayFromString` | teeio-validator/library/helperlib/utils.c:510-576 | the strtok loop parses the non-empty parts between commas, all or nothing, within the capacity |
| `SwitchConn.BuiltIsWellNamed` | teeio-validator/teeio_validator/ide_test_ini.c:1831-1889 | switches and ports named after distinct numbers have distinct names without separators |
| `SwitchConn.ParsePrint` | teeio-validator/teeio_validator/ide_test_ini.c:2363-2390 | parsing what was printed for a chain of existing connections gives the chain |
| `SwitchConn.PrintParse` | teeio-validator/teeio_validator/ide_test_ini.c:1930-1986 | printing what was parsed gives the text back |
| `SwitchConn.ParseSwitchString` | teeio-validator/teeio_validator/ide_test_ini.c:1891-1928 | the three names between the first colon and the first hyphen behind it |
| `SwitchConn.ParseSwConnsString` | teeio-validator/teeio_validator/ide_test_ini.c:1930-1986 | the chain of all parts between commas, or none; and the length of the longest part copied into the line buffer |
| `SwitchConn.LongestExactly` | teeio-validator/teeio_validator/ide_test_ini.c:1937-1959 | the copies stay inside a line buffer if and only if every part up to the first bad one is shorter than it |
| `SwitchConn.LongPartCopied` | teeio-validator/teeio_validator/ide_test_ini.c:1937-1959 | a line of 512 name characters is copied whole into the buffer of 512 bytes |
| `SwitchConn.PrintSwitchConn` | teeio-validator/teeio_validator/ide_test_ini.c:2363-2390 | prints every connection followed by a comma and cuts the last one off |
| `CxlKey.GeneratedIv` | teeio-validator/library/cxl_ide_test_lib/test_case/ide_km_common.c:62-144 | on every path on which the generator succeeds the first IV dword is the fixed one, and an IV announced as default is the default |
| `CxlKey.GenerateKey` | teeio-validator/library/cxl_ide_test_lib/test_case/ide_km_common.c:62-144 | fails if and only if the answer to GET_KEY or the random number that the mode needs is missing; the key is the fixed one of its direction, or the device's when it generates the key it transmits with, or else the random number; the IV is the device's if it is asked for one with the fixed first dword, or else the default, and announced as what it is |
| `CxlKey.GeneratedExactly` | teeio-validator/library/cxl_ide_test_lib/test_case/ide_km_common.c:62-144 | these conditions determine what is generated, in every mode |
| `CxlKey.SetupEnds` | teeio-validator/library/cxl_ide_test_lib/test_case/ide_km_common.c:319-395 | how far a setup came decides, register by register, what has changed in the root port and in the device |
| `CxlKey.RecoverExactly` | teeio-validator/library/helperlib/utils.c:139-148 | the 64-bit register determines the 96-bit IV if and only if its first dword is the fixed one |
| `CxlKey.SwappedTwice` | teeio-validator/library/helperlib/utils.c:98-132 | reversing the bytes inside every dword loses nothing |
| `CxlKey.RevertBytesInsideDw` | teeio-validator/library/helperlib/utils.c:98-106 | swaps the outer and inner bytes of one dword in place |
| `CxlKey.ConstructRpKeys` | teeio-validator/library/helperlib/utils.c:113-132 | reverses the bytes inside every dword of a key |
| `CxlKey.PlacedDetermines` | teeio-validator/library/cxl_ide_lib/cxl_ide.c:749-778 | the root port's registers of a direction determine the key and IV the device uses |
| `CxlKey.KeyedExactly` | teeio-validator/library/cxl_ide_test_lib/test_case/ide_km_common.c:319-372 | once both KEY_PROGs have come through both sides agree if and only if the device holds the generated material, refused in neither direction: the setup does not look at the acknowledged status |
| `CxlKey.SetupAgreesExactly` | teeio-validator/library/cxl_ide_test_lib/test_case/ide_km_common.c:242-414 | after a successful setup of a device without keys both sides agree if and only if it accepted both keys; it was told to receive and transmit with them in any case |
| `CxlKey.StartExactly` | teeio-validator/library/cxl_ide_test_lib/test_case/ide_km_common.c:374-395 | encryption is switched on or started only with both keys placed and valid and the device told to receive, and both sides agree then exactly if the device refused neither key |
| `CxlKey.RefusedKeyStarts` | teeio-validator/library/cxl_ide_test_lib/test_case/ide_km_common.c:319-395 | a device that refuses both keys gets its link encrypted and started, and the setup reports success, with nothing agreed |
| `CxlKey.CxlPort.CxlSetupIdeStream` | teeio-validator/library/cxl_ide_test_lib/test_case/ide_km_common.c:242-414 | the code on the registers: succeeds exactly if both materials are generated and all four messages come through; what has changed in every register and in the device, however far it came, and the exact condition under which both sides agree then |
| `Measurement.AnsweredAll` | teeio-validator/library/spdmlib/spdm.c:287-325 | the indices counted are all that were answered, in increasing order |
| `Measurement.SignatureLast` | teeio-validator/library/spdmlib/spdm.c:295-305 | of the answered requests that count, exactly the last asks for a signature |
| `Measurement.CollectOneByOne` | teeio-validator/library/spdmlib/spdm.c:275-333 | succeeds if and only if the announced number of indices up to 254 answer and their records stay strictly inside the capacity; then the buffer holds them in order; index after index is asked for while answers are missing, up to 254 and no further |

## Left out

- Device files, memory mappings, sleeps, key presses, the SPDM library, random numbers and cryptography: their results are arguments.
- Status registers that hardware changes by itself: the final check that a stream is secure is an arbitrary answer, and the KCBAR status registers only keep their values.
- Logging, packet capture, dumps, the command line, the `lside` and `setide` tools.
- The individual protocol test cases (query, key programming, capabilities and the like): lists of single comparisons.
- Registration tables and name lookups other than those of switches and ports.
- Running out of memory.
- The combined selective-and-link topology, which the source marks as not implemented.
- The cleanup after a chain of switch connections that fails to parse: the model returns no chain.
- The size of the buffer that the path printer is given, which it never looks at.
- CXL register location, BAR mapping, stop and teardown of CXL streams, key refresh of CXL streams.
- The GET_KEY settings at the start of a CXL setup, which only narrow the two generation modes or refuse.
- Building the plan of a suite from the configuration: plans are arbitrary, and what holds only for one configuration says so.
- Results of configuration items and of group callbacks, which no counter looks at; a group callback records no assertion because no case is current.
- The check that reads the names of assertions in a report reply: those checks record a result and change nothing else.
- KeyProtocol.MakeBeforeBreak: speaks of the selection and the enable bits of the stream's own registers; that the device really switches its traffic is the device's affair.
- StreamSafety.RunSafe: takes whole triples and no fewer Rx than Tx slots for granted; `SlotAlloc.TriplesInBothExactly` says when the allocator needs that, and `SlotAlloc.NarrowPortOverrun` what happens otherwise.
- Fleet.ApplyConsistent: covers openings on a stream and a triple that are still free, as `Fleet.RunsSafe` does; of a stream whose refresh failed it claims agreement on the paths that use the selected key set only; more is not true of the code, as `FailedRefresh.PathSurvivesExactly` shows.
- Fleet.RunsSafe: a stream is opened while it is disabled and on a triple that is free at that time, which the library does not check; `Opening.SafeExactlyWhenStillSetAside` shows that nothing less will do.
- Kcbar.RegisterBlock.CfgRootportIdeKeys: slot numbers are below 1024 as in the index registers; the source passes them through eight bits, which the allocator's at most 24 slots never exceed.
- IdeEcap.ConfigSpace.GetIdeRegBlockOffset: covers blocks reached over blocks with one address block each, which the source asserts.
- IniFile.LookupRefines: says nothing about files that leave a freed node in the list; reading one is undefined in the source.
- Doe.SendExact: requests of 2^32 dwords or more, whose length the source truncates, are not distinguished.
- TspReport.GetConfigurationReport: runs over as many replies as it is given, since the loop need not end; the portion length is a parameter because its constant is defined in a library that is not part of this model. The array stands for the memory from the start of the buffer on; `TspReport.InsideExactly` says what part of it is written.
- Measurement.CollectOneByOne: the first request, for all measurements at once, is the library's; the model begins where it has failed.
