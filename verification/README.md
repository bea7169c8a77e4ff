# Drysua: verified models of the bot's core logic

Drysua is a game bot with its training stack. This project models the parts of it that carry real logic, in Dafny, and proves what they promise. Nothing here runs the bot; the proofs are about the models, and the models follow the code branch by branch. `dafny verify dfyconfig.toml` checks everything.

| files | what they model |
|---|---|
| `Common`, `Geometry`, `Waves`, `PathField` | the loot path field: an early-stopping flood fill over a reused distance buffer, on top of a general theory of breadth-first waves |
| `Recipes`, `Purchases`, `Buying` | shop recipes: the three-colour search that admits them, the bounded expansion of missing parts, the buy mask, and the run of purchases that completes a recipe |
| `Passability`, `Landing` | the static passability grid and the side-symmetric search for a teleport landing |
| `MaskBuilding`, `ActionMasks` | the conditional action masks, their projections, the decoding of actions, and purchases from the built space to the order |
| `HeadTargets`, `Labelling`, `PackedTargets` | labels and legal masks per policy head, their validation and their packed form |
| `Controller`, `ControllerHistory` | the adaptive environment controller and the literal history rule it reproduces |
| `SnapshotChain` | the hash-chained snapshot files that stay in step with the controller |
| `Decimals`, `ScaleScope`, `AnnealRamp` | environment decimals, the recorded scale flags, the integer root and the annealing ramp |
| `ManifestFields`, `ManifestCodec`, `ManifestCoding`, `CheckpointCommit` | the binary manifest and the crash-safe commit of a checkpoint |
| `Varint`, `PacedLockstep`, `Relay` | the play protocols: canonical varints, the two-seat pacer, the framing relay and the ordered admission |
| `Map2Reward`, `GaussJordan` | the telescoping reward and the Gauss-Jordan inversion of the rating statistics |

## How the source is rendered

- Code that updates fields in place is a class here (`PathField.DistanceField`, `Passability.PassabilityCache`, `Labelling.ActionHeadTargets`, `PackedTargets.PackedActionHeadTargets`, `SnapshotChain.SnapshotStore`, `ManifestFields.ManifestWriter` and `ManifestReader`, `CheckpointCommit.Folder`, `PacedLockstep.PacedClock`, `Relay.SeatRelay`, `Map2Reward.RewardObserver`). Loops are loops, proved against a function or predicate about which the lemmas speak. Pure code is functions.
- Integers are unbounded; wherever a width matters it is written out (`FitsI32`, `U64`, `U128_LIMIT`, the sentinel `U32_MAX`), and the proofs show that no overflow happens or say exactly when one does.
- `Fixed` is Q16.16; positions are raw 32-bit values. Floats of the reward and of the matrix are reals; floats in the manifest are bit patterns.
- SHA-256 is an arbitrary function. It is never zero where a zero hash means "no prefix" (`DigestNonZero`), and injective only where a lemma says so (`CollisionFree`).
- The file system of `CheckpointCommit` keeps apart what processes see and what a power loss leaves: a file's contents survive once the file was synced and are torn in any way before, a directory change survives once the directory was synced; before that a power loss keeps any prefix of the changes. Renames are atomic. A killed process leaves everything as it was seen.
- Training draws every collected generation before its first update is observed (`SnapshotChain.DrawnFirst`); a draw may also be cut short by a crash that leaves its file behind.
- Payload checks of the relay, the snapshot body, UTF-8 validity and the build's scope checks are arbitrary functions: what is proved holds whatever they say.

## Results worth knowing before reading the code

- A legal `Learn` action cannot always be labelled: the learn mask may have eight bits while its head has six classes. `Labelling.FromSampledAction` states exactly when labelling succeeds, `Labelling.LearnFitsExactly` that in a built space it does for at most six abilities, and `Labelling.SeventhAbilityHasNoLabels` gives a built space where it fails. The tracker keeps Shadow Fiend, the hero trained on, at six abilities (src/tracker.rs:1503-1508).
- The manifest decoder accepts one second spelling: an absent evaluation stored as negative zero. `ManifestCoding.DecodesExactlyEncodings` is therefore not an identity of bytes.
- A valid artifact may still be too large to encode: `ManifestCoding.EncodedSize` gives the size as a sum, `Encode` fails exactly above 65536 bytes, and `SixteenLongNamesAreTooMany` makes any valid manifest such a one.
- A save that is repeated after its tensor sync failed may report success and lose everything in a power loss: `write_immutable` takes an existing equal file as written without syncing it (src/checkpoint.rs:1388-1394). `CheckpointCommit.RetryAfterFailedSyncIsLost` is the run, `SavingIsSafeExactly` says when saving is safe, and `RestartingRunsAreGuarded` that a restart of the machine after every save cut short is enough.
- docs/reward.md:43-45 says the shaping of an episode sums to zero. The code's sum is minus the potential of the first tick, which is zero only if that potential is; the code is followed (`Map2Reward.RewardObserver.Finish`).
- The reward compares last hits and denies as one pair (src/map2_reward.rs:469), so denies may fall when last hits rise; the 16-bit difference then wraps around (with overflow checks it panics). `Map2Reward.FallingDeniesPass` is the input, and `Map2Reward.RewardObserver.Finish` counts the falls: the drained denies are final minus initial exactly when there was none.
- An update of a valid controller state is refused in exactly one case, an extended budget beyond the counter range (`Controller.ObserveKeepsValid`).

## Model

| member | source | states |
|---|---|---|
| Waves.WaveIsMinimal | src/feature.rs:2313-2366 | while a fill runs, a set distance is shorter than every walk to its node, and an unset node is further away than the node about to be expanded |
| Waves.WaveIsExact | src/feature.rs:2313-2366 | every set distance is a shortest number of steps, also after an early stop; after exhaustion an unset node is unreachable |
| Waves.ShortestHasNoChord | src/feature.rs:2335-2363 | a shortest walk repeats no node and skips along no edge |
| PathField.ShortestWalkMissesCorner | src/feature.rs:2208-2266 | on an 8-neighbour grid with at least two columns a shortest walk never visits all cells |
| PathField.NextDistanceFits | src/feature.rs:2335-2362 | on every grid the field accepts, up to 65536 cells a side, a computed distance never equals the 32-bit sentinel |
| PathField.NeighbourIsStride | src/feature.rs:2322-2334 | the eight directions reach every adjacent cell, each by one stride |
| PathField.ExpandCell | src/feature.rs:2335-2363 | one queue cell's inner loop keeps the wave: a distance is set exactly for queued cells, each queued once |
| PathField.FloodFill | src/feature.rs:2313-2366 | the fill ends with a wave that is exhausted or has settled every target, and counts the unsettled ones |
| PathField.SortedDistinct | src/feature.rs:2229-2233 | the recorded targets are strictly increasing and are exactly the requested ones |
| PathField.DistanceField.Reset | src/feature.rs:2223-2228 | walking the last queue clears the whole distance buffer |
| PathField.DistanceField.PreparePathDistances | src/feature.rs:2208-2253 | over any sequence of calls every target is answered exactly from the position's cell; a covered call with the same origin changes nothing, and an origin off the map leaves the buffer alone |
| PathField.DistanceField.Refill | src/feature.rs:2216-2252 | a fresh fill makes the field valid for its origin and remembers the targets |
| PathField.PathStepsIsShortest | src/feature.rs:2263-2266 | to a prepared target the reported steps are the length of a shortest walk, and there are none exactly when there is no walk |
| Geometry.CellXY | src/feature.rs:2299-2306 | a position has a cell exactly inside the map, and lies in it |
| Recipes.WalkDescends | src/action.rs:1255-1294 | along a component walk the place in a component-first order falls |
| Recipes.SoundIsOrdered | src/action.rs:1234-1294 | an acyclic shop can be listed with every recipe after its components |
| Recipes.OrderedIsSound | src/action.rs:1234-1294 | such a list proves the shop resolved and acyclic |
| Recipes.AcyclicWalkIsShort | src/action.rs:1255-1294 | without cycles a component walk never repeats an entry |
| Recipes.StackHasRoom | src/action.rs:1280-1286 | an unvisited component always finds room on the 64-slot stack, so the depth assertion cannot fire |
| Recipes.GreyIsCycle | src/action.rs:1287 | meeting an entry still on the stack proves a cycle |
| Recipes.ValidateRecipeFrom | src/action.rs:1255-1294 | one search finishes its root and everything below it, or names a real fault |
| Recipes.ValidateShopRecipes | src/action.rs:1234-1253 | Ok exactly when item ids are unique, every component resolves and the component graph is acyclic; each fault is true of the shop |
| Purchases.MissingConcat | src/action.rs:2310-2345 | buying a list is buying its parts in turn against what is left |
| Purchases.MissingConserves | src/action.rs:2310-2345 | conservation: missing leaves plus the leaves of used-up parts are all leaves of the recipe, and only used-up parts leave the bag |
| Purchases.HeldShrinks | src/action.rs:2325-2328 | the expansion only takes from the held parts |
| Purchases.DescentGrows | src/action.rs:2343 | consecutive composite pops walk down the component graph and number at most the shop entries |
| Purchases.LimitSuffices | src/action.rs:2299-2307 | the pop bound that follows stays below the expansion limit |
| Purchases.LeafStep | src/action.rs:2329-2342 | a popped leaf overflows the price, fills one slot too many, or extends the requirement by exactly itself |
| Purchases.ExpandMissingParts | src/action.rs:2310-2345 | the stack expansion returns price, slots and first leaf of the recursive greedy expansion, cut off past fifteen slots, and never its limit error |
| Purchases.MissingBuyRequirement | src/action.rs:2283-2308 | the requirement of a leaf and of a recipe, the unknown item, and that the expansion limit error cannot occur |
| Buying.OneMoreLeaf | src/action.rs:2310-2345 | holding one more copy of a leaf removes the first need for it and changes nothing else |
| Buying.FirstLeafHelps | src/action.rs:2310-2345 | buying the first missing leaf leaves exactly the others missing |
| Buying.LeavesComplete | src/action.rs:2310-2345 | buying all missing leaves completes the recipe and keeps the spare parts |
| Buying.BuildBuyRequirements | src/action.rs:2255-2281 | every candidate is measured against the same held parts; the space is refused exactly by a price overflow of some candidate |
| Buying.HeldPerSlot | src/action.rs:2260-2267 | an item is held once for every bag or stash slot that holds it |
| Buying.RoomIsRoom | src/action.rs:2656-2671 | room is the empty stash slots, and beside the fountain the empty bag slots; a mango also goes onto a plain stack of one or two |
| Buying.BitIsBuyable | src/action.rs:2681-2684 | the capped requirement decides as the full list of leaves would: all fit and the gold covers all |
| Buying.FillBuyMask | src/action.rs:2647-2686 | the mask is set exactly for buyable candidates of the hero, and a set bit has a first missing leaf |
| Buying.PurchaseIsNeverStranded | src/action.rs:1173-1182 | bought part by part, the rest of a recipe stays buyable with the gold and room left after every step, and after as many purchases as leaves were missing nothing is missing |
| Passability.SpanMissesNone | src/action.rs:1469-1477 | the window of a disc contains every cell whose centre the disc covers |
| Passability.CloseRow | src/action.rs:1498-1507 | stepping the raw x coordinate closes exactly the covered cells of the row |
| Passability.BlockCircle | src/action.rs:1469-1509 | exactly the cells whose centres lie within the radius are closed; a centre off the map closes none |
| Passability.BuildStaticPassability | src/action.rs:1389-1431 | a cell is open exactly when its terrain is and no tree or structure covers its centre |
| Passability.GridExactly | src/action.rs:1389-1431 | cell by cell: open exactly when the terrain's top bit is set and no tree that stands, no planted tree and no structure reaches the cell's centre |
| Passability.GridIgnoresOrder | src/action.rs:1389-1431 | the grid depends on which discs there are, not on their order or repetition |
| Passability.PassabilityCache.Reconstruct | src/action.rs:1322-1340 | returning the cached grid on an equal key equals rebuilding it |
| Landing.CanonicalLiesInCell | src/action.rs:1872-1895 | the landing point lies in its own cell, for either side |
| Landing.SidesCount | src/action.rs:1858-1895 | Radiant counts cells from the origin and lands in their centres, Dire counts from the far corner and lands one raw unit before |
| Landing.SearchRow | src/action.rs:1847-1867 | a row scan keeps the running best the preferred candidate so far |
| Landing.NearestLandingCell | src/action.rs:1821-1870 | the answer is the open cell of the window with the least squared distance, then canonical index, or none |
| Landing.LandingIsUnique | src/action.rs:1858-1866 | that preference leaves one answer |
| Landing.LandingIsOpen | src/action.rs:1821-1870 | the returned point lies in an open cell of the window |
| Landing.LandingIsMirrored | src/action.rs:1821-1895 | the Dire search on the point-mirrored grid and centre answers with the mirror of the Radiant landing |
| MaskBuilding.SpaceIsWellBuilt | src/action.rs:2353-2645 | building gives every mask one bit per candidate within the caps, empty masks to absent units, and a first leaf to every buy bit |
| MaskBuilding.MasksExactly | src/action.rs:2353-2645 | the masks of a living unit allow exactly what it may do: move, attack, cast, use, put, take, buy, sell, swap and learn by their own conditions |
| MaskBuilding.LegalExactly | src/action.rs:997-1079 | in a built space an action is legal exactly when its unit lives and may do it |
| MaskBuilding.RazePointsAreRazeTargetsOnly | src/action.rs:2373-2403 | a raze-only point is the target of no legal action but a raze |
| MaskBuilding.BuyersAreHeroes | src/action.rs:2647-2656 | a legal purchase is the living hero's, through a set buy bit |
| MaskBuilding.PurchaseIsAffordable | src/action.rs:1173-1182 | in a built space every legal purchase decodes to an order for a sold item whose price the gold covers |
| MaskBuilding.BuildStockedSpace | src/action.rs:2255-2281 | requirements, buy mask and masks together build a well-built space in which every legal purchase can be paid for; it fails only when some candidate's price overflows |
| ActionMasks.FamilyShowsAction | src/action.rs:675-694 | a family bit has a full member behind it |
| ActionMasks.ActionShowsFamily | src/action.rs:675-694 | a legal full action sets its family bit |
| ActionMasks.AllowsIsConditional | src/action.rs:997-1079 | the kind mask never contradicts the conditional masks |
| ActionMasks.KindMaskIsExact | src/action.rs:2747-2754 | a kind bit is set exactly when some full action of the kind is legal |
| ActionMasks.UnitMaskIsExact | src/action.rs:830-837 | a unit bit is set exactly when that unit has a legal full action of the kind |
| ActionMasks.SlotMasksAreExact | src/action.rs:860-875 | ability and item slot bits are set exactly when some target of the slot is legal |
| ActionMasks.PutSourceIsExact | src/action.rs:878-892 | a put source bit is set exactly when something may be put from the slot |
| ActionMasks.DecodesExactlyLegal | src/action.rs:1008-1203 | decoding succeeds exactly on the legal actions, and only Continue sends no order |
| ActionMasks.OrderSaysAction | src/action.rs:1121-1203 | the order sent has the verb of the kind, the slots of the action, and aims at the position or id of what the action names; the courier is named, the hero is not |
| ActionMasks.DecodeIsInjective | src/action.rs:1121-1203 | with distinct candidates, two legal actions other than purchases never send the same order |
| HeadTargets.LabelsDetermineAction | src/action_head_targets.rs:227-432 | the labels along the path determine the action |
| HeadTargets.LabelsSayAction | src/action_head_targets.rs:209-432 | head by head, which part of the action is its label, and the recorded prefix |
| HeadTargets.MasksFit | src/action_head_targets.rs:679-696 | every mask fits its head except possibly the learn mask |
| HeadTargets.OwnLabelIsLegal | src/action_head_targets.rs:131-155 | a legal action's own label is set in every mask of its path |
| HeadTargets.MaskDependsOnPrefix | src/action_head_targets.rs:227-432 | the mask of a head depends only on the earlier choices |
| HeadTargets.Steer | src/action_head_targets.rs:227-432 | every set class can be followed to a complete legal action |
| HeadTargets.HeadMaskIsExact | src/action_head_targets.rs:194-432 | a class is set exactly when some legal action makes the same earlier choices and takes it |
| Labelling.FirstFault | src/action_head_targets.rs:435-449 | there is no faulty head exactly when every head passes |
| Labelling.ValidatedNamesOneAction | src/action_head_targets.rs:435-497 | targets that validate carry the labels and prefix of exactly one action, the one read back |
| Labelling.LabelsAreValid | src/action_head_targets.rs:194-207 | labels of a legal action validate, and reading them back gives the action |
| Labelling.ActionHeadTargets.Base | src/action_head_targets.rs:209-225 | a base target labels the kind head only |
| Labelling.ActionHeadTargets.Activate | src/action_head_targets.rs:679-696 | a head is activated with its padded mask, or fails exactly when the mask is too wide |
| Labelling.ActionHeadTargets.MapControlled | src/action_head_targets.rs:295-302 | labels the unit head of actions that select a unit |
| Labelling.ActionHeadTargets.MapTarget | src/action_head_targets.rs:348-374 | labels mode and pointer of a cast or use |
| Labelling.ActionHeadTargets.MapCast | src/action_head_targets.rs:304-327 | labels a cast completely and records its ability slot |
| Labelling.ActionHeadTargets.MapUse | src/action_head_targets.rs:329-346 | labels a use completely and records its item slot |
| Labelling.ActionHeadTargets.MapPutPoint | src/action_head_targets.rs:376-409 | labels a put at a point completely and records its source slot |
| Labelling.ActionHeadTargets.MapPutUnit | src/action_head_targets.rs:257-275 | labels a put into a unit completely and records its source slot |
| Labelling.ActionHeadTargets.MapSwap | src/action_head_targets.rs:411-432 | labels a swap completely and records its source slot |
| Labelling.ActionHeadTargets.MapAction | src/action_head_targets.rs:227-293 | the head fields become the labels of the action, unless its learn mask is too wide |
| Labelling.FromSampledAction | src/action_head_targets.rs:194-207 | refuses exactly illegal actions and learns under a mask wider than six, and otherwise returns the labels |
| Labelling.SeventhAbilityHasNoLabels | src/action_head_targets.rs:194-207 | in the space built for a living hero with seven abilities that can be levelled, levelling the first is legal and has no labels |
| Labelling.LearnFitsExactly | src/action.rs:2636-2644 | in a space built from a snapshot a legal Learn action has labels exactly when the hero has at most six abilities |
| PackedTargets.SettingOneBit | src/action_head_targets.rs:586-590 | setting a mask bit changes that bit only |
| PackedTargets.PackedActionHeadTargets.PackHead | src/action_head_targets.rs:576-592 | one head more is stored: flag, class byte and mask bits, nothing beyond |
| PackedTargets.PackedActionHeadTargets.UnpackHead | src/action_head_targets.rs:594-609 | reads one head from the cursor and leaves it behind its mask |
| PackedTargets.Pack | src/action_head_targets.rs:528-550 | all twelve heads end up in 307 bits of 39 bytes |
| PackedTargets.PackedActionHeadTargets.Unpack | src/action_head_targets.rs:554-573 | every head and the prefix are read back |
| PackedTargets.StoredReadsBack | src/action_head_targets.rs:576-609 | a stored head reads back with its class cut to a byte |
| PackedTargets.RoundTrip | src/action_head_targets.rs:528-573 | unpacking a packed target restores it exactly when every class fits a byte |
| PackedTargets.LabelsFit | src/action_head_targets.rs:194-207 | labels of a legal action always do |
| Controller.StreaksStayValid | src/adaptive_environment.rs:404-479 | capped streaks and the award keep the streak invariants |
| Controller.ObserveKeepsValid | src/adaptive_environment.rs:238-366 | on a valid state an update is refused exactly when its extended budget leaves the counter range; otherwise the next state is valid |
| Controller.ValidExactly | src/adaptive_environment.rs:302-365 | a state is accepted exactly when it is coherent: settings in range, updates adding up, streaks and awards backed by updates, exact credit covering what was spent, no generation across the zero tail |
| ControllerHistory.StreakIsWindow | src/adaptive_environment_tests.rs:101-155 | a capped streak is full exactly when the trailing window qualifies throughout |
| ControllerHistory.ObserveJudgesRates | src/adaptive_environment.rs:262-273 | in a generation that goes on an accepted report raises a streak exactly when its win rate reaches (success) or stays within (poor) the configured rate, and breaks it otherwise; no game breaks both |
| ControllerHistory.BudgetIsWholeAllowance | src/adaptive_environment.rs:369-404 | the budget is the whole part of base plus awards times the exact extension |
| ControllerHistory.ObserveAgrees | src/adaptive_environment.rs:238-299 | one report keeps the counters equal to the history, judged by win rates and exact allowance; it is refused exactly when the rule says the budget is lost |
| ControllerHistory.RunFollowsHistory | src/adaptive_environment.rs:238-299 | along every run generation, start, streaks and awards are those of the literal history rule over win rates, exact allowance and zero tail |
| ControllerHistory.SpendingWithinBudget | src/adaptive_environment.rs:238-299 | a generation never spends more updates than its base and the exact extensions of its own awards allow |
| ControllerHistory.BoundaryOpensGeneration | src/adaptive_environment.rs:274-281 | the zero-randomization boundary always opens a generation with fresh counters |
| Decimals.PlainOfValue | src/adaptive_environment.rs:43-86 | digit strings without an idle zero are the renderings of their values |
| Decimals.Display | src/adaptive_environment.rs:88-107 | the display loop renders the whole part and the fraction without trailing zeros |
| Decimals.DecimalRoundTrip | src/adaptive_environment.rs:43-107 | parsing the display of any 64-bit decimal returns it |
| Decimals.ParsesExactly | src/adaptive_environment.rs:40-86 | a text parses exactly when it is plain notation of at most 27 bytes and six fractional digits whose millionths fit 64 bits |
| Decimals.DisplayIsShortest | src/adaptive_environment.rs:88-107 | no other text that starts with a digit and parses to the same value is shorter |
| ScaleScope.EndpointRoundTrip | src/randomization.rs:292-304 | an endpoint's text parses back to its basis points |
| ScaleScope.RecordedScaleIsSplit | src/randomization.rs:281-334 | a recorded non-default ramp is split off with its exact prefix |
| ScaleScope.SplitsExactlyRecordedScales | src/randomization.rs:311-334 | a ramp is split off exactly when the command ends in its rendering; any other command comes back whole |
| AnnealRamp.DigitRoom | src/randomization.rs:493-514 | the root found so far leaves room for the digit under trial |
| AnnealRamp.TrialFits | src/randomization.rs:503-512 | the loop's trial sum fits 128 bits |
| AnnealRamp.IsqrtU128 | src/randomization.rs:493-514 | the floor square root of every 128-bit value |
| AnnealRamp.ComputeScaleBp | src/randomization.rs:226-235 | the coded scale equals its definition by floor roots |
| AnnealRamp.RootIsExact | src/randomization.rs:226-235 | the normalized root is the exact floor of ten thousand times the square root of the elapsed fraction |
| AnnealRamp.RampStartsAtStart | src/randomization.rs:226-235 | a ramp with a positive span starts at its start endpoint |
| AnnealRamp.RampIsMonotone | src/randomization.rs:226-279 | the ramp never turns back and stays between its endpoints |
| AnnealRamp.ScaleIsLinearInRoot | src/randomization.rs:218-279 | the scale is zero on the tail, and before it the whole part of the straight line between the endpoints at the exact root of the elapsed fraction |
| SnapshotChain.StartRoundTrip | src/adaptive_randomization.rs:166-217 | the start recorded in a canonical snapshot is read back |
| SnapshotChain.CheckpointExactly | src/adaptive_randomization.rs:120-149 | a checkpoint is sound exactly when its controller is coherent, at most the current generation is committed with all before it, and the current one is once it spent an update unless it began with the last |
| SnapshotChain.Verify | src/adaptive_randomization.rs:29-76 | accepts exactly the directories that hold the committed chain: canonical files, increasing starts from zero, matching hash and end |
| SnapshotChain.SnapshotStore.DrawGeneration | src/adaptive_randomization.rs:82-118 | a draw commits at most one new file and link, and a failed draw leaves directory, count and hash alone |
| SnapshotChain.DrawExtends | src/adaptive_randomization.rs:82-118 | a first draw extends the accepted prefix by one strictly later start and one link |
| SnapshotChain.DrawSucceedsExactly | src/adaptive_randomization.rs:82-118 | from accepted files a draw fails exactly on a leftover file that differs from the snapshot to be drawn, and it changes no other file |
| SnapshotChain.DrawIsIdempotent | src/adaptive_randomization.rs:82-118 | drawing again changes nothing |
| SnapshotChain.ObserveKeepsValidCheckpoint | src/adaptive_randomization.rs:120-149 | an observed update keeps the checkpoint valid, and a new generation starts strictly later |
| SnapshotChain.EveryRunIsAccepted | src/adaptive_randomization.rs:29-149 | every state of every run of draws, interrupted draws and updates is accepted, from any leftover files |
| SnapshotChain.CommitmentIsBinding | src/adaptive_randomization.rs:219-227 | directories accepted for one checkpoint agree on every committed snapshot |
| ManifestFields.FieldReads | src/checkpoint.rs:1246-1331 | a written field reads back, whatever follows |
| ManifestFields.FieldIsCanonical | src/checkpoint.rs:1282-1331 | a field is read from no other bytes than its own |
| ManifestFields.LowestByteFirst | src/checkpoint.rs:1246-1265 | integers are written lowest byte first |
| ManifestFields.ManifestWriter.Text | src/checkpoint.rs:1266-1274 | text is written with its length, or refused when empty, too long or not plain |
| ManifestFields.ManifestWriter.Fields | src/checkpoint.rs:1246-1274 | fields are appended in order |
| ManifestFields.ManifestReader.Take | src/checkpoint.rs:1286-1295 | takes the next bytes or reports truncation |
| ManifestFields.ManifestReader.Field | src/checkpoint.rs:1286-1331 | reads one field and leaves the cursor behind it |
| ManifestFields.ManifestReader.Fields | src/checkpoint.rs:1282-1353 | reads a list of fields, or fails when one fails |
| ManifestCodec.RunComesFrom | src/checkpoint.rs:1095-1127 | run fields are those of the decoded run; a device is CPU with ordinal zero or CUDA |
| ManifestCodec.HeadComesFrom | src/checkpoint.rs:1152-1160 | progress fields are those of the decoded progress, up to the sign of an absent float |
| ManifestCodec.ValidManifestExactly | src/checkpoint.rs:672-759 | what is refused beyond the build's own checks: texts that are empty, long or not plain, lists of more than 32, generators with bad names, equal names or too many draws |
| ManifestCoding.ManifestReads | src/checkpoint.rs:989-1060 | an encoded manifest reads back field for field, whatever follows it |
| ManifestCoding.ManifestIsCanonical | src/checkpoint.rs:1016-1060 | whatever is read is an encoding, up to the sign of an absent float |
| ManifestCoding.DecodesExactlyEncodings | src/checkpoint.rs:989-1060 | the decoder accepts exactly the encodings of valid manifests within the size bound and their negative-zero spelling |
| ManifestCoding.RoundTrip | src/checkpoint.rs:989-1060 | decoding the encoding of a valid manifest restores every metadata field and the adaptive block, exactly when its closed size is within the bound |
| ManifestCoding.AcceptedIsComplete | src/checkpoint.rs:1348-1353 | no extension of an accepted manifest is accepted |
| ManifestCoding.CutsAreRefused | src/checkpoint.rs:1286-1295 | no proper prefix of any encoding is accepted |
| ManifestCoding.BlockIs152Bytes | src/checkpoint_adaptive.rs:98-157 | the adaptive block takes 152 bytes |
| ManifestCoding.ManifestLayout | src/checkpoint.rs:44-46 | the format field by field: every integer little-endian at its width, every text behind its length, in the documented order |
| ManifestCoding.EncodedSize | src/checkpoint.rs:989-1014 | an encoding takes 273 bytes, the four texts, eighteen bytes and the name of each generator, eight per reference, and 152 for the adaptive block |
| ManifestCoding.SixteenLongNamesAreTooMany | src/checkpoint.rs:1010-1012 | any valid manifest with its generators replaced by sixteen of the longest distinct names is valid and too large to encode |
| ManifestCoding.Encode | src/checkpoint.rs:989-1014 | a valid manifest is encoded, or refused exactly when its texts, lists and block add up to more than the size bound |
| ManifestCoding.DecodeManifest | src/checkpoint.rs:1016-1060 | the reader computes the decoding that the lemmas speak about |
| CheckpointCommit.HeldArtifactLoads | src/checkpoint.rs:431-453 | a directory that holds an artifact loads it, and is sound for that artifact alone exactly when both files were synced |
| CheckpointCommit.UnreadIsHarmless | src/checkpoint.rs:1388-1400 | new files and changes to names a load does not read leave a sound directory sound |
| CheckpointCommit.RecoveredIsSafe | src/checkpoint.rs:431-453 | a power loss, whatever changes it keeps and however it tears unsynced files, leaves a safe disk safe |
| CheckpointCommit.SafeResumes | src/checkpoint.rs:431-453 | from a safe disk an allowed artifact is resumed, or nothing before the first commit, after any power loss and without one |
| CheckpointCommit.SafeIsResumable | src/checkpoint.rs:431-453 | a disk is safe exactly when every power loss leaves an allowed artifact, or nothing before the first commit |
| CheckpointCommit.WriteWrites | src/checkpoint.rs:1388-1400 | writing an immutable file succeeds exactly when a new file meets no fault or an existing one matches, and leaves it synced unless an unsynced one was reused |
| CheckpointCommit.WriteIsSafe | src/checkpoint.rs:1388-1400 | every disk passed through while an immutable file is written is safe |
| CheckpointCommit.ReplaceReplaces | src/checkpoint.rs:1404-1417 | replacing a file puts the content in place, synced unless the temporary was a reused unsynced one, touches no other name and leaves no temporary unless its removal fails |
| CheckpointCommit.RuntimeIsSafe | src/checkpoint.rs:380-390 | every disk passed through while the runtime weights are replaced is safe |
| CheckpointCommit.ManifestIsSafe | src/checkpoint.rs:380-390 | every disk passed through while the manifest is replaced is safe, if tensor file and temporary are synced |
| CheckpointCommit.FilesWrite | src/checkpoint.rs:380-390 | the three files go through exactly under the stated conditions on the disk found, and then hold the artifact and its runtime weights, synced exactly unless an unsynced file was reused |
| CheckpointCommit.SyncCommits | src/checkpoint.rs:374-393 | the directory sync makes an artifact whose files are synced the only one a power loss can leave |
| CheckpointCommit.PruneIsSafe | src/checkpoint.rs:1459-1490 | pruning, however far it gets, never removes the file the manifest names |
| CheckpointCommit.PruneRemoves | src/checkpoint.rs:1459-1490 | pruning removes exactly the listed tensor files other than the retained one |
| CheckpointCommit.SaveInstallsRuntime | src/checkpoint.rs:380-390 | a save fails exactly when a file does not go through or the directory sync fails; otherwise the runtime weights of the artifact are installed, and survive every power loss unless their temporary was a reused unsynced one |
| CheckpointCommit.SaveIsSafe | src/checkpoint.rs:374-393 | a save that does not go through on an unsynced file passes safe disks only, and commits when it reports so |
| CheckpointCommit.SaveLosesUnsynced | src/checkpoint.rs:1388-1394 | a save that goes through on an unsynced file loads at once and may load nothing after a power loss, although it reports success |
| CheckpointCommit.SaveIsSafeExactly | src/checkpoint.rs:374-393 | whatever step of a save fails or is interrupted, only a previously possible artifact or the new one is resumed, and after success only the new one: exactly unless the save goes through on an unsynced file |
| CheckpointCommit.SavingIsSafeExactly | src/checkpoint.rs:374-393 | saving an artifact is safe under every fault exactly when neither its tensor file nor a manifest temporary with its contents was left unsynced |
| CheckpointCommit.RetryAfterFailedSyncIsLost | src/checkpoint.rs:1388-1400 | from an empty directory: a save whose tensor sync fails, a faultless second one that reports success, and a power loss that leaves nothing to load |
| CheckpointCommit.EveryRunResumes | src/checkpoint.rs:374-453 | over every run of saves, kills and power losses in which no save relies on an unsynced file, the next load resumes a possible artifact complete |
| CheckpointCommit.RestartingRunsAreGuarded | src/checkpoint.rs:1388-1400 | no save relies on an unsynced file if the machine restarts after every save that was killed or left a file unsynced |
| CheckpointCommit.CleanSaveKeepsTidy | src/checkpoint.rs:374-393 | a save that runs to its end without such a fault leaves nothing unsynced that a later one could rely on |
| CheckpointCommit.Folder.WriteImmutable | src/checkpoint.rs:1388-1400 | passes the disks of the write the lemmas speak about |
| CheckpointCommit.Folder.ReplaceFile | src/checkpoint.rs:1404-1417 | passes the disks of the replacement the lemmas speak about |
| CheckpointCommit.Folder.Prune | src/checkpoint.rs:1459-1490 | passes the disks of the pruning the lemmas speak about |
| CheckpointCommit.Folder.Save | src/checkpoint.rs:374-393 | the disks it passes through keep the promise exactly unless it goes through on a file that was never synced; success means manifest, tensors and runtime weights are in place, the last also after any power loss unless from a reused unsynced temporary |
| Varint.TerminatedIsEncoding | scripts/play_admission.py:22-39 | a terminated group without an idle top byte is the encoding of its value |
| Varint.LengthTestIsCanonical | scripts/play_pacing.py:13-27 | the bit-length test rejects exactly the groups with an idle top byte |
| Varint.HoldsOne | scripts/play_admission.py:22-39 | at most one value stands at an offset |
| Varint.ReadU32 | scripts/play_pacing.py:13-27 | returns the 32-bit value that canonically stands at the offset and its end, or malformed when there is none |
| Varint.ReadVarint | scripts/play_admission.py:22-39 | the same for 16, 32 and 64 bits |
| Varint.ReadingIsUnique | scripts/play_pacing.py:13-27 | both readers agree on every payload |
| Varint.EncodedIsHeld | scripts/play_admission.py:22-39 | what was encoded stands at its offset, whatever surrounds it |
| PacedLockstep.PacedClock.ObserveServer | scripts/play_pacing.py:52-72 | a server frame moves the clock as the step relation says, and a refused one not at all |
| PacedLockstep.PacedClock.ObserveSnapshot | scripts/play_pacing.py:74-88 | the same for a snapshot |
| PacedLockstep.PacedClock.AllowAck | scripts/play_pacing.py:90-108 | an acknowledgement passes, waits or is refused as the step relation says |
| PacedLockstep.StepKeepsLockstep | scripts/play_pacing.py:52-108 | every accepted frame keeps acked, completed and snapshot ticks ordered and the seats within one tick |
| PacedLockstep.StepKeepsTime | scripts/play_pacing.py:52-108 | every accepted frame keeps the deadline tied to the current tick's arrival |
| PacedLockstep.RunIsPaced | scripts/play_pacing.py:40-108 | every run that was not aborted is in lockstep and on time |
| PacedLockstep.SeatsStayTogether | scripts/play_pacing.py:40-108 | over every run the seats' snapshots differ by at most one and tick k comes no earlier than k-1 periods after tick 1 |
| PacedLockstep.ArrivalsAreSpaced | scripts/play_pacing.py:74-88 | arrivals are at least a period apart |
| PacedLockstep.AckPassesExactlyWhenDue | scripts/play_pacing.py:90-108 | an acknowledgement passes exactly when it is the next one, both seats completed its tick and a whole period has passed |
| PacedLockstep.RunIsCounted | scripts/play_pacing.py:40-108 | along every run the clock counts the frames that passed: starts, snapshots, completions, acknowledgements and ends per seat |
| PacedLockstep.RefusedExactly | scripts/play_pacing.py:52-108 | over every run a frame is refused exactly when, by what passed before, it is garbled, out of order, opens a tick before both acknowledgements of the last, or acknowledges anything but the seat's current snapshot, each once |
| PacedLockstep.DueAckIsNeverRefused | scripts/play_pacing.py:90-108 | the next acknowledgement for the current snapshot is never refused: it passes once both seats completed the tick and a thirtieth of a second is over, and is held before |
| PacedLockstep.HeldAckPassesLater | scripts/play_pacing.py:105-106 | a held acknowledgement changes nothing and passes when retried after the period, once both seats completed the tick |
| PacedLockstep.StallsExactly | scripts/play_pacing.py:110-114 | a match is stalled exactly when it is not over for both seats and ten seconds brought no new tick |
| PacedLockstep.ServerKinds | scripts/play_pacing.py:52-72 | server payloads by kind byte, with the tick that follows |
| PacedLockstep.ClientKinds | scripts/play_pacing.py:30-37 | an acknowledgement is kind four, a tick and nothing else |
| Relay.FrameWasChecked | scripts/play_admission.py:344-374 | every relayed frame passed the check of the state it arrived in |
| Relay.WelcomeFollowsHello | scripts/play_admission.py:344-358 | a seat is welcomed only by a Welcome after its client's Hello |
| Relay.MatchOverIsLast | scripts/play_admission.py:359-374 | no server frame is relayed after the match is over |
| Relay.HeaderHoldsLength | scripts/play_admission.py:305-307 | a frame header is the little-endian payload length |
| Relay.FlagsAreHistory | scripts/play_admission.py:344-374 | the flags of a seat are what its consumed frames say: a client frame, a server frame other than a lobby change, an end of the match after it |
| Relay.ObservedExactly | scripts/play_admission.py:344-374 | a payload passes its check exactly when the rule over the consumed frames admits it |
| Relay.HandshakeFramesAreShort | scripts/play_admission.py:308-312 | in every log a client frame before Hello and a server frame before Welcome carries at most 64 bytes, later ones at most four mebibytes |
| Relay.BatchExactly | scripts/play_admission.py:300-342 | unpaced, whole frames and the start of another are consumed completely and in order exactly when every frame belongs where it stands and the started one announces an admissible length |
| Relay.SeatRelay.ReadBudget | scripts/play_admission.py:263-267 | the budget is the largest chunk that does not overfill the pair of queues, and an incomplete frame with nothing queued always has some |
| Relay.SeatRelay.Observe | scripts/play_admission.py:344-374 | flags after a frame are those of its payload check, and the end of the match closes upstream writing |
| Relay.SeatRelay.TakeFrame | scripts/play_admission.py:318-334 | one whole frame is consumed, logged and queued for the other side |
| Relay.SeatRelay.TakeTurn | scripts/play_admission.py:303-336 | one turn of the frame loop does what the verdict on the next frame says: fail, wait, or take exactly that frame |
| Relay.SeatRelay.ForwardFrames | scripts/play_admission.py:300-342 | fails exactly on a frame whose length, count, payload or pacer verdict is illegal in the state it arrives in, or on bytes that ended within a frame; otherwise consumes whole frames in order until an incomplete or held one; unpaced batches stay below the batch limit |
| Relay.SeatRelay.Receive | scripts/play_admission.py:269-298 | reading within the budget fails exactly when the byte limit is passed, a frame of the batch is illegal, or the stream ends or resets where it may not; otherwise the relay stays valid and loses no byte |
| Relay.SeatRelay.WriteTo | scripts/play_admission.py:159-175 | writing moves exactly the first queued bytes to the socket |
| Relay.SeatRelay.BreakUpstream | scripts/play_admission.py:250-261 | a broken upstream drops orders but still drains the server |
| Relay.Admission.ReadReady | scripts/play_admission.py:229-236 | a side is read only when open and with room, at most the budget, and fails exactly when receiving does |
| Relay.ServerBytesAreConserved | scripts/play_admission.py:269-342 | received bytes are exactly the written, the queued and the incomplete ones, per direction |
| Relay.FramingIsUnique | scripts/play_admission.py:300-342 | however a stream is cut into reads, the same frames are consumed |
| Relay.Admission.Pump | scripts/play_admission.py:75-90 | the second seat is not connected upstream before the first one's Welcome |
| Map2Reward.WeakestIsFraction | src/map2_reward.rs:516-523 | the weakest tower is a lower bound that some tower attains |
| Map2Reward.PotentialIsBounded | src/map2_reward.rs:525-541 | the potential stays within its bound, and below the gap between win and loss in a running game |
| Map2Reward.DeathsCount | src/map2_reward.rs:525-541 | one more own death below the limit lowers the potential by 0.4, one more enemy death raises it by as much |
| Map2Reward.HealthCounts | src/map2_reward.rs:525-541 | own health counts a fifth for, enemy health a fifth against |
| Map2Reward.TowersCount | src/map2_reward.rs:525-541 | the weakest own tower counts three quarters for, the weakest enemy tower as much against |
| Map2Reward.LeadsCount | src/map2_reward.rs:525-541 | experience counts a fifth per thousand of lead and last hits a quarter per twenty, each saturating there |
| Map2Reward.PotentialIsZeroSum | src/map2_reward.rs:525-541 | seen from the other side the potential is the opposite |
| Map2Reward.EvenGameIsZero | src/map2_reward.rs:525-541 | an even game without towers has no potential |
| Map2Reward.FastWinFalls | src/map2_reward.rs:607-616 | the bonus is 0.5 until pregame ends, falls linearly to zero at the cap, and is for wins only |
| Map2Reward.TowersStayBounded | src/map2_reward.rs:483-501 | the tower history stays within its cap and keeps every tower |
| Map2Reward.SeenIsFirst | src/map2_reward.rs:483-491 | a tower has the health of its first entry in the snapshot, and none when it is missing |
| Map2Reward.AppendedExactly | src/map2_reward.rs:492-500 | afterwards every tower seen is known once, and only those and the earlier ones are |
| Map2Reward.HistoryGrowsByNew | src/map2_reward.rs:473-479 | with distinct towers in sight the history grows by exactly the unknown ones that the cap counts |
| Map2Reward.DamageIsBookedOnce | src/map2_reward.rs:544-585 | damage to the own hero is booked exactly once, and events touch no scoreboard counter |
| Map2Reward.BatchesRefused | src/map2_reward.rs:618-640 | an event batch is refused exactly for more than 4096 events or damage outside 0..=1000000 |
| Map2Reward.CountersAreSums | src/map2_reward.rs:544-585 | each damage counter grows by the damage of its own class: taken from hero, tower or otherwise, dealt to hero or enemy tower |
| Map2Reward.FallingDeniesPass | src/map2_reward.rs:469-471 | last hits and denies are compared as a pair: one deny less passes when last hits rose, and books 65535 |
| Map2Reward.RewardObserver.ObserveSnapshot | src/map2_reward.rs:330-348 | a snapshot is staged exactly when it may be, and a refused one changes nothing |
| Map2Reward.RewardObserver.UpdateTowers | src/map2_reward.rs:483-501 | known towers are refreshed, missing ones count as destroyed, new ones are appended |
| Map2Reward.RewardObserver.UpdateHeroHealth | src/map2_reward.rs:504-514 | a dead hero counts as whole, an unseen living one keeps its last health |
| Map2Reward.RewardObserver.ObserveEvents | src/map2_reward.rs:351-387 | completing a tick moves shaping by the change of potential, towers and hero health as seen, counters by damage class and scoreboard gain; the first tick is the baseline |
| Map2Reward.RewardObserver.TakeInterval | src/map2_reward.rs:390-396 | draining returns the interval and empties it |
| Map2Reward.RewardObserver.Finish | src/map2_reward.rs:400-421 | everything drained sums to 1, -1 or -0.5 plus the fast-win bonus less the first potential; counters to final minus initial values, denies with 65536 more for every tick they fell; ticks to the length of the episode |
| Map2Reward.ShapingTelescopes | src/map2_reward.rs:351-421 | while an episode runs, drained plus pending shaping is the potential gained since its first tick |
| GaussJordan.PivotRow | scripts/eval_stats.py:140 | the first row of largest magnitude at or below the column |
| GaussJordan.SwapKeepsUndo | scripts/eval_stats.py:143 | a row swap is undone by a column operation on the accumulated inverse steps |
| GaussJordan.ScaleKeepsUndo | scripts/eval_stats.py:144-145 | so is scaling a row |
| GaussJordan.SubtractKeepsUndo | scripts/eval_stats.py:146-150 | so is subtracting a multiple of a row |
| GaussJordan.SubtractKeepsLeft | scripts/eval_stats.py:146-150 | the left half stays the right half times the matrix |
| GaussJordan.ClearColumn | scripts/eval_stats.py:146-150 | clearing a column makes it a unit column and keeps the earlier ones |
| GaussJordan.EliminatedIsInverse | scripts/eval_stats.py:134-151 | a fully eliminated matrix holds a two-sided inverse in its right half |
| GaussJordan.Invert | scripts/eval_stats.py:134-151 | whatever is returned multiplies the input to the identity from either side; it fails only when undoable row operations leave no entry of size for the next pivot |

## Left out

- Sockets, `select`, deadlines of connections, subprocesses, reports and argument parsing: only the step each causes is modelled.
- The neural model, PPO, `safetensors` and the tracker: their outputs are arbitrary values with the stated bounds.
- Candidate generation, raze geometry and range tests: candidates are given, and `MaskBuilding.Reach` is arbitrary.
- Readiness of abilities and items (cooldown, mute, mana and status checks) enters `MaskBuilding` as one flag per slot.
- Scalar feature normalisation and one-hot encoding, `insert_sorted_token` and the feature arena of src/feature.rs.
- Decoding of the run-length terrain and the construction of the passability key; the key is the cache's input.
- Overflow of `usize` sums such as the recipe edge count and the expansion limit, and of 64-bit squared distances on the map.
- Which error is reported when a manifest has several faults: `ManifestCoding.Decode` only says whether there is a manifest. Fixed runs of fields are read by one loop over a field list instead of one call per field.
- The scope checks of src/checkpoint_adaptive.rs:37-96 and the range checks of src/checkpoint.rs:672-753 other than text, counts and the generators are arbitrary functions of `ManifestCodec.Build`.
- Drawing the modifiers of a generation and the body of a snapshot after its start: an arbitrary text per generation and start.
- I/O failures while snapshot files are written or read, and the create-without-replace publication of them.
- The checks before a save (artifact, directory, at most 128 entries) and the listing of files to prune: a save prunes any list of tensor files.
- Loading of `CheckpointCommit` stops at the tensor hash; tensor names, shapes and values are not modelled. Retrying after a torn immutable file is not claimed to succeed.
- Rating statistics other than the inversion, and rounding: the matrix is real.
- Half-closing of a drained connection and the abort on a server that disconnects before MatchOver (scripts/play_admission.py:230-247).
- The contents of Hello, Welcome, snapshot and MatchOver payloads: their checks are arbitrary predicates of `Relay.Checks`.
- An origin off the map makes `PreparePathDistances` forget its origin but keep old distances, which `PathSteps` would still report; nothing is claimed for that state.
- Which moment collection draws a generation at: the training loop is not part of this model.
