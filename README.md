# loop-casual core, modelled in Dafny

This project models the core of loop-casual, a KoLmafia script that plays a
Kingdom of Loathing run as a graph of tasks. Each task has a readiness and a
completion predicate, its dependencies, and the resources (banishes, wanderers,
equipment) it may spend. The model covers the following:

- **Task-graph assembly** (`task_graph.dfy`, src/tasks/all.ts). Every task object
  is renamed in place to `<quest>/<task>`. Same-quest dependencies get the same
  prefix. The build is rejected at the first dependency that names no task.
  `AllTasks` is a method over task objects, proved against `BuildGraph`, a
  function over value snapshots.
- **Resource selection and outfit caching** (`outfit.dfy`, src/engine/outfit.ts):
  - `equipFirst` and `equipUntilCapped` over an abstract outfit;
  - `loadItems` with its dual-wield and accessory-slot rules;
  - `cacheScore`, as a greedy accessory matching, proved equal to a
    multiset-intersection score;
  - `cacheDress`'s choice of cached outfit.
- **Banish bookkeeping** (`banish.dfy`), shared by the two `BanishState` classes:
  - the inversion of the banished-monster list;
  - the set of banishers committed to tasks;
  - the filter of free sources.
- **The engine's resources** (`engine_resources.dfy`, src/engine/resources.ts):
  - the banish catalogue;
  - the Asdon Martin bumper cooldown, read from the `banishedMonsters` text with
    JavaScript's `split`, `toLowerCase`, `indexOf` and `parseInt` (`js_text.dfy`);
  - `asdonFualable`;
  - the `BanishState` class with its ice-house exception;
  - `canChargeVoid` and the cursed-magnifying-glass wanderer.
- **The older resource file** (`legacy_resources.dfy`, src/resources.ts):
  - a `BanishState` that fixes its used banishers when it is built and has no
    ice-house exception;
  - a magnifying-glass wanderer that also waits for the gunpowder.
- **The war quest** (`war.dfy`, src/tasks/level12.ts):
  - `clamp`, `warReady`/`warSkip`, `councilSafe` and `flyersDone`;
  - the flyer-counter correction of "Flyers End", as a method on the settings;
  - the completion and readiness predicate of every task;
  - the dependency data of the 26 tasks, with the proof that every dependency
    resolves once the quest is assembled.
- **Level-11 pieces** (`macguffin.dfy`, src/tasks/level11.ts):
  - `rotatePyramid`, as a method over the pyramid position and inventory;
  - the `gnasirProgress` bitmask tests, over a model of JavaScript's 32-bit `&`;
  - the milestone count of "Finish with Milestones".

The game is the record `Game.Env`. It holds preferences, quest steps,
inventory, effects, skills, level, turn count and meat. Every predicate takes
it as a parameter and never reads ambient state. `wrappers.dfy` holds Option
and Result. `subsequence.dfy` holds the order-preserving subsequence relation.

## Model

| member | source | states |
|---|---|---|
| TaskGraph.BuildGraph | src/tasks/all.ts:24-75 | The value meaning of `all_tasks`: the qualified list, or the first unknown-dependency message. `BuildGraphSuccess` and `BuildGraphFailure` characterize both outcomes. |
| TaskGraph.QualifyDep | src/tasks/all.ts:57-59 | A dependency with '/' is kept, and any other gets the owner's prefix. `QualifyDepIdempotent`, `LocalDependencyResolves` and `CrossQuestDependencyResolves` state what that means for resolution. |
| TaskGraph.AllTasks | src/tasks/all.ts:24-75 | Renames every task object in place to its qualified form. On success it returns the objects in quest order and then declaration order, and the result equals `BuildGraph` of the old snapshot. On failure it throws exactly `BuildGraph`'s error. |
| TaskGraph.RewriteQuests | src/tasks/all.ts:52-62 | The rewrite loop pushes the flattened task objects and leaves each one as the qualified form of its old value. |
| TaskGraph.QualifyQuestTasks | src/tasks/all.ts:54-61 | One quest's inner loop appends that quest's tasks to the result and rewrites each task's name and dependencies. |
| TaskGraph.CheckDependencies | src/tasks/all.ts:64-73 | The name set is built from all tasks first. The first dependency, in task order and then list order, that is not a name yields the "Unknown task dependency" error; otherwise there is none. |
| TaskGraph.BuildGraphSuccess | src/tasks/all.ts:64-74 | The build succeeds iff every dependency of the qualified list names a task of it, and it then returns that list. |
| TaskGraph.BuildGraphFailure | src/tasks/all.ts:67-72 | A failed build reports `Unknown task dependency <dep> of <task>` for the first unresolved dependency, and every earlier one resolves. |
| TaskGraph.QualifyAllAt | src/tasks/all.ts:53-61 | Task b of quest a lands at offset (tasks of earlier quests) + b, as `<quest>/<name>` with qualified dependencies. The list length is the total task count. |
| TaskGraph.QualifyAllOrigin | src/tasks/all.ts:53-61 | Every entry of the list is the qualified form of some declared task. |
| TaskGraph.QualifyDepIdempotent | src/tasks/all.ts:57-59 | A qualified dependency contains '/', so qualifying it again under any quest leaves it unchanged. |
| TaskGraph.CrossQuestDependencyResolves | src/tasks/all.ts:57-59 | A dependency written as the qualified name of any quest's task, earlier or later, resolves. |
| TaskGraph.LocalDependencyResolves | src/tasks/all.ts:57-59 | A '/'-free dependency equal to a task name of the same quest resolves. |
| TaskGraph.RewriteTwice | src/tasks/all.ts:56-59 | A second rewrite prefixes every name again but leaves every dependency alone, so the rewrite is not idempotent. |
| TaskGraph.DeclaredDependenciesBuild | src/tasks/all.ts:24-75 | Quests whose dependencies are all declared (same-quest names or qualified names) always build, in any quest order. |
| TaskGraph.DuplicatesAndCyclesAccepted | src/tasks/all.ts:64-73 | Duplicate names and a dependency cycle pass the check, because only membership is tested. |
| TaskGraph.FirstDanglingSome | src/tasks/all.ts:67-72 | The reported dependency is unresolved, and every dependency before it resolves. |
| Outfit.Outfit.Equip | src/engine/outfit.ts:37 | An equip succeeds exactly when the library accepts it. A refused equip leaves the outfit unchanged. |
| Outfit.EquipFirst | src/engine/outfit.ts:32-41 | The loop returns the resource and outfit state given by `FirstFit`. |
| Outfit.FirstFitIsFirst | src/engine/outfit.ts:32-41 | The result is the first resource, in list order, that is available, has non-zero chance, can be equipped and equips. Every earlier resource fails a check, and None means every resource failed. |
| Outfit.UnofferedIgnored | src/engine/outfit.ts:34-35 | Dropping unavailable and chance-0 resources changes neither loop's result nor the outfit. |
| Outfit.EquipUntilCapped | src/engine/outfit.ts:43-54 | The loop returns the resources and outfit state given by `UntilCapped`. |
| Outfit.UntilCappedShape | src/engine/outfit.ts:43-54 | The result is an order-preserving subsequence of the input. Each returned resource passed all four checks (available, chance not 0, `canEquip`, `equip`) against the outfit as it stood after the earlier ones were equipped (`EquipTrace`). The final outfit is the last of those states. Only the last returned element can have chance 1. |
| Outfit.UntilCappedStopsAtCertain | src/engine/outfit.ts:51 | When everything is offered and fits, the result is the input up to and including the first chance-1 resource. |
| Outfit.CappedExample | src/engine/outfit.ts:43-54 | [A(0.5), B(1), C(1)] yields [A, B]. |
| Outfit.LoadItems | src/engine/outfit.ts:284-309 | The returned map is `Loaded`. Without an outfit name it maps each of the nine slots to the worn item. |
| Outfit.LoadedWeapon | src/engine/outfit.ts:295-299 | The first weapon piece goes to the weapon slot. |
| Outfit.LoadedOffHand | src/engine/outfit.ts:296-298 | With two or more weapons and no off-hand piece, the last weapon is the off-hand item. |
| Outfit.LoadedAccessories | src/engine/outfit.ts:290-303 | Accessory pieces fill acc1, acc2 and acc3 in list order, popped from [acc3, acc2, acc1]. |
| Outfit.LoadedOverflow | src/engine/outfit.ts:301-303 | A fourth accessory and later ones go to slot none, so the last of them is the one kept there. |
| Outfit.CacheScore | src/engine/outfit.ts:311-333 | The score is the number of fixed slots with the desired item, plus the size of the multiset intersection of loaded and desired accessories. |
| Outfit.MatchFixedSlots | src/engine/outfit.ts:314-317 | Counts the non-accessory slots where the desired item is the loaded one. |
| Outfit.MatchAccessories | src/engine/outfit.ts:319-330 | The greedy first-unmet-slot matching always finds a maximum matching, whose size is the multiset intersection. |
| Outfit.FindUnmet | src/engine/outfit.ts:323-325 | `find` returns the first unmatched accessory slot that wants the item, or none when no unmatched slot wants it. |
| Outfit.GreedyStep | src/engine/outfit.ts:323-329 | A loaded accessory is matched exactly when the intersection grows by one, so the greedy step stays maximal. |
| Outfit.ScoreBound | src/engine/outfit.ts:311-333 | The score is at most 9. |
| Outfit.DuplicateAccessoryCountsOnce | src/engine/outfit.ts:319-330 | Wanting {X, Y} while [X, X] is loaded scores 1. |
| Outfit.ShiftedAccessoriesMatch | src/engine/outfit.ts:319-330 | X wanted in acc1 and acc2 and loaded in acc2 and acc3 scores 2: slots are not compared position by position. |
| Outfit.LastMax | src/engine/outfit.ts:267 | Returns a position of the highest score; every later position scores strictly less. |
| Outfit.SortThenReverseTop | src/engine/outfit.ts:267 | A stable ascending sort followed by `reverse` puts the last of the highest scores first. |
| Outfit.Pick | src/engine/outfit.ts:268-275 | An outfit is adopted only when it beats the current score by more than one, and it is the last of the highest. Otherwise no cached outfit scores above current + 1. |
| Outfit.CacheDress | src/engine/outfit.ts:261-278 | Adopts `Script Outfit <Pick>` from the scores of the six cached outfits against the current equipment, or nothing. |
| Banish.Inverted | src/engine/resources.ts:107-111 | The map's keys are exactly the banished monsters of the entry list. |
| Banish.InvertedLastWins | src/engine/resources.ts:107-111 | A monster listed more than once keeps the banisher of its last entry. |
| Banish.Find | src/engine/resources.ts:117-122 | `find` returns the first match, or None iff nothing matches. |
| Banish.TargetBanishersMeaning | src/engine/resources.ts:139-142 | For one task's target list, a banisher is collected iff it banished one of the targets. |
| Banish.UsedBanishersMeaning | src/engine/resources.ts:136-143 | A banisher is used iff it banished some banish target of some task that has a combat strategy. |
| Banish.CollectUsed | src/engine/resources.ts:136-143 | The nested loops compute exactly `UsedBanishers`. |
| Banish.NoCombatNoBanishers | src/engine/resources.ts:138 | A task without a combat strategy adds no banisher. |
| Banish.Unused | src/engine/resources.ts:145 | The result keeps catalogue order. A source is in it iff it is in the catalogue, is available, and its banisher is not used. |
| Banish.CommittedExcluded | src/engine/resources.ts:135-146 | A source whose banisher banished a task's target is excluded, however available it is. |
| EngineResources.AsdonFualable | src/engine/resources.ts:289-295 | A true result implies the car is installed, both bugbear pieces are held, and meat ≥ 24·amount + 1000. |
| EngineResources.AsdonBumperAvailable | src/engine/resources.ts:48-57 | Availability implies the fuel rule for 50. |
| EngineResources.BumperOffCooldown | src/engine/resources.ts:51-56 | The cooldown half of the bumper rule on the `banishedMonsters` text. `BumperUnrecorded`, `CooldownOfTurn` and `BumperWithoutTurn` state its three cases. |
| EngineResources.BumperUnrecorded | src/engine/resources.ts:51-55 | With no bumper field in `banishedMonsters`, only the fuel rule decides. |
| EngineResources.BumperCooldown | src/engine/resources.ts:51-56 | With the first bumper field followed by the turn it was used on, the bumper is available iff the fuel rule holds and more than 30 turns have passed. |
| EngineResources.BumperWithoutTurn | src/engine/resources.ts:56 | A bumper in the last field reads its turn as NaN, so the bumper is never available. |
| EngineResources.CooldownOfTurn | src/engine/resources.ts:51-56 | The cooldown half alone: off cooldown iff turncount − t > 30. |
| EngineResources.Catalogue | src/engine/resources.ts:40-102 | Seven sources with pairwise different banishers and names. |
| EngineResources.BanishState.constructor | src/engine/resources.ts:107-111 | `already_banished` is the inverted banish list. |
| EngineResources.BanishState.IsPartiallyBanished | src/engine/resources.ts:114-124 | True iff the task has a combat strategy and some banish target is banished by something other than the ice house. |
| EngineResources.BanishState.IsFullyBanished | src/engine/resources.ts:127-132 | True iff every banish target is banished, which is vacuously true without a combat strategy. |
| EngineResources.BanishState.IceHouseOnly | src/engine/resources.ts:114-132 | Targets banished only by the ice house make a task fully but not partially banished. |
| EngineResources.BanishState.UnusedBanishes | src/engine/resources.ts:135-146 | Equals `Unused` of the catalogue and the used banishers. A source is free iff it is available and banished no target of the given tasks. |
| EngineResources.CanChargeVoid | src/engine/resources.ts:194-196 | Implies fewer than 13 charges. |
| EngineResources.MagnifyingGlassAvailable | src/engine/resources.ts:175-182 | Implies at least 13 charges. |
| EngineResources.ChargeOrFight | src/engine/resources.ts:175-196 | Charging and the glass wanderer are never both possible. With the glass and free fights left, exactly one is. |
| LegacyResources.Catalogue | src/resources.ts:32-73 | Six sources with pairwise different banishers and names. |
| LegacyResources.BanishState.constructor | src/resources.ts:80-92 | Builds the inverted map, and the used set as `UsedBanishers` of the tasks given at construction. |
| LegacyResources.BanishState.IsPartiallyBanished | src/resources.ts:95-101 | True iff some banish target is banished by anything, the ice house included. |
| LegacyResources.BanishState.IsFullyBanished | src/resources.ts:104-110 | True iff every banish target is banished. |
| LegacyResources.BanishState.FullyImpliesPartially | src/resources.ts:95-110 | With a target, fully banished implies partially banished. |
| LegacyResources.BanishState.UnusedBanishes | src/resources.ts:113-117 | Order-preserving, and membership iff available and not among the banishers fixed at construction. |
| LegacyResources.CanChargeVoid | src/resources.ts:160-162 | Implies fewer than 13 charges. |
| LegacyResources.MagnifyingGlassAvailable | src/resources.ts:139-150 | Implies 13 charges, and five gunpowder barrels or a finished lighthouse sidequest. |
| LegacyResources.ChargeOrFight | src/resources.ts:139-162 | Charging and the glass wanderer are never both possible. |
| JsText.SplitJoin | src/engine/resources.ts:51 | Splitting separator-free parts joined by the separator gives the parts back. |
| JsText.JoinSplit | src/engine/resources.ts:51 | Joining the pieces of a split gives the string back. |
| JsText.IndexOf | src/engine/resources.ts:52-54 | -1 iff absent; otherwise the first position holding the item. |
| JsText.ParseIntNatToString | src/engine/resources.ts:56 | `parseInt` reads back a decimal natural number, followed by nothing or by a non-digit. |
| JsText.Split | src/engine/resources.ts:51 | `split(':')` yields at least one piece. `SplitJoin` and `JoinSplit` prove it inverse to `join`. |
| JsText.ParseInt | src/engine/resources.ts:56 | `parseInt` in base 10: leading white space, a sign, then the digit run, or NaN (None) without digits. `ParseIntNatToString` proves it reads back `String(n)`. |
| JsText.LowerAll | src/engine/resources.ts:53 | Lowercases each entry, keeping the length. |
| War.Clamp | src/tasks/level12.ts:623-625 | The result lies in [lo, hi] when lo ≤ hi. It is n inside the range and the nearer bound outside it. |
| War.WarReady | src/tasks/level12.ts:579-581 | The war waits for the end of ronin when it is delayed. `ReadyOrSkip` relates it to `WarSkip`. |
| War.WarSkip | src/tasks/level12.ts:584-586 | The sidequests are skipped after ronin or when the war is delayed. `ReadyOrSkip` and `SkipCompletes` state its effect. |
| War.ReadyOrSkip | src/tasks/level12.ts:579-586 | After ronin both `warReady` and `warSkip` hold. Before it exactly one does, and the war is skipped iff it is delayed. |
| War.CouncilSafe | src/tasks/level12.ts:555-566 | Unsafe only when the war is not delayed, at level 12, with neither war outfit. |
| War.FlyersDone | src/tasks/level12.ts:39-41 | flyeredML ≥ 10000. `CorrectionRearms` proves that a correction made when it holds leaves it false. |
| War.CorrectFlyers | src/tasks/level12.ts:63-80 | With flyers still held, the new settings are `FlyersCorrected` of the old ones; otherwise they are unchanged. |
| War.CorrectionKeepsTotal | src/tasks/level12.ts:66-71 | The correction keeps flyeredML + buffer, sets flyeredML to 9900, and changes no other counter or setting. |
| War.CorrectionRearms | src/tasks/level12.ts:39-72 | After a correction made when the flyers were done, the buffer has grown by at least 100 and "Flyers End" is no longer ready. |
| War.FlyersEndGated | src/tasks/level12.ts:60 | "Flyers End" is ready iff flyeredML ≥ 10000, and a correction makes it wait again. |
| War.Completed | src/tasks/level12.ts:43-553 | The `completed` condition of each of the 26 war tasks. `SkipCompletes` and `SkipLeavesWar` state which of them `warSkip` settles. |
| War.Ready | src/tasks/level12.ts:43-553 | The `ready` condition of each war task, true where the source gives none. `StartWaitsForOutfit` and `FlyersEndGated` state the two non-trivial ones. |
| War.After | src/tasks/level12.ts:43-553 | The `after` list of each war task. `DependenciesDeclaredEarlier` and `WarDependenciesResolve` prove every entry refers back and resolves. |
| War.SkipCompletes | src/tasks/level12.ts:45-512 | When the war is skipped, every outfit, sidequest and battlefield task is complete. |
| War.SkipLeavesWar | src/tasks/level12.ts:410-541 | Start, Enrage, Fluffers and Boss Hippie are not reached by the skip: delayed and unstarted, none is complete. |
| War.StartWaitsForOutfit | src/tasks/level12.ts:410-413 | At level 12 without delay, Start is ready iff either war outfit is held. |
| War.Position | src/tasks/level12.ts:406-553 | Each task's position in declaration order holds that task. |
| War.DependenciesDeclaredEarlier | src/tasks/level12.ts:406-553 | Every `after` entry is the island unlock or a task declared earlier. |
| War.NameUnqualified | src/tasks/level12.ts:406-553 | No local task name contains '/'. |
| War.WarDependenciesResolve | src/tasks/level12.ts:406-553 | Assembled with a quest declaring the island unlock, every dependency of the war quest resolves. |
| Macguffin.JsRem | src/tasks/level11.ts:228 | JavaScript `%`: the remainder has the dividend's sign and is smaller in magnitude than the divisor. |
| Macguffin.CeilDiv | src/tasks/level11.ts:132 | `Math.ceil(a/b)` is the least r with r·b ≥ a. |
| Macguffin.TurnsNeeded | src/tasks/level11.ts:228 | For positions and goals in 1..5 it lies in [0, 4], and position + turns ≡ goal (mod 5). |
| Macguffin.Stocked | src/tasks/level11.ts:229-233 | Buying ratchets leaves ratchets + wheels ≥ the turns needed and only adds ratchets. Nothing is bought when enough is held. |
| Macguffin.TurnsAdvance | src/tasks/level11.ts:235-241 | n loop passes with enough items turn the pyramid n steps and spend wheels before ratchets. |
| Macguffin.RotationReachesGoal | src/tasks/level11.ts:227-244 | From position and goal in 1..5 the rotation ends at the goal, having spent exactly the turns needed. |
| Macguffin.StrayPositionFails | src/tasks/level11.ts:228-242 | A recorded position more than five past the goal gives a negative remainder: nothing is bought or turned, and the rotation fails. |
| Macguffin.Pyramid.RotatePyramid | src/tasks/level11.ts:227-244 | The new state is `Rotated` of the old one, and the method throws `FailedToRotate(goal)` iff the final position is not the goal. |
| Macguffin.RotateWithinRange | src/tasks/level11.ts:227-244 | Within positions and goals 1..5 the rotation never throws. |
| Macguffin.AndPow2 | src/tasks/level11.ts:101-107 | Anding with 2^k keeps bit k and clears the others. |
| Macguffin.MaskTest | src/tasks/level11.ts:101-107 | `(n & 2^k) > 0` iff bit k of n's 32-bit pattern is set, and `=== 0` otherwise. |
| Macguffin.Useful | src/tasks/level11.ts:105-107 | An acquire entry is useful while `(gnasirProgress & mask) === 0`. `UsefulMeaning` proves it means the item's bit is clear. |
| Macguffin.TurnInCompleted | src/tasks/level11.ts:99-103 | The `completed` condition of "Gnasir Turn-in". `TurnInMeaning` restates it in bits. |
| Macguffin.FinishReady | src/tasks/level11.ts:126 | Both the paint and the jar bits are set. `FinishAfterTurnIn` relates it to `Useful` and `TurnInCompleted`. |
| Macguffin.FinishCompleted | src/tasks/level11.ts:127 | Done when milestones are not wanted or the desert is explored. `MilestonesReach` states how far the milestones take it. |
| Macguffin.UsefulMeaning | src/tasks/level11.ts:105-107 | Black paint, killing jar and drum machine are useful iff bit 1, 2 or 4 respectively is clear. |
| Macguffin.TurnInMeaning | src/tasks/level11.ts:99-103 | "Gnasir Turn-in" is complete iff exploration ≥ 100, or fewer than 15 pages are held with bits 1 and 2 set. |
| Macguffin.FinishAfterTurnIn | src/tasks/level11.ts:99-126 | "Finish with Milestones" is ready iff neither paint nor jar is useful. With fewer than 15 pages the turn-in is then complete. |
| Macguffin.MilestoneCount | src/tasks/level11.ts:132-135 | The count acquired and used lies in [0, 20] for exploration in [0, 100]. |
| Macguffin.MilestonesReach | src/tasks/level11.ts:132-135 | At 5 points per milestone the count lifts exploration e to above 95 and at most 100. It reaches 100 exactly iff e is a multiple of 5. |

## Left out

- The concrete list of quests in `all_tasks` is a parameter of `AllTasks`, and the quest files other than level 11 and 12 are not part of this model. Task objects are assumed distinct (no object is listed twice). Aliasing between quests is excluded by that precondition.
- Only `name` and `after` of a task are modelled. Priorities, limits, outfits, combat strategies and the other task fields are not. The scheduler that consumes the graph is not part of this model.
- `available()`, `chance()` and the outfit library's `canEquip`/`equip` are modelled as values and caller-supplied rules read at the moment of the call. `Outfit` keeps only its equipment map, not its modifier, familiar or avoid lists.
- `equipInitial`, `equipCharging`, `equipDefaults`, `fixFoldables`, and `dress`/`equipOutfit`, which act on the game, are left out. `CacheDress` returns the outfit it would equip.
- The stable sort in `cacheDress` is not run. Its effect, that the last of the highest scores comes first, is `LastMax`, with `SortThenReverseTop` proving the correspondence for any stable sort order.
- `getBanishedMonsters()`, `outfitPieces`, `toSlot` and `equippedItem` are game queries. They become parameters (`entries`, `Wardrobe`).
- `toLowerCase` is modelled on ASCII letters only. `parseInt` is modelled in base 10 with a sign and leading ASCII white space (space, tab, LF, VT, FF, CR), without hexadecimal prefixes or non-ASCII white space such as no-break space.
- Preferences that were never set read as 0, false or "" (`Game.Count`, `Flag`, `Text`). The model does not carry KoLmafia's own per-preference defaults. `atLevel(n)` is `level >= n`.
- `have` and `itemAmount` both read the one inventory count `Game.Env.items` (`Have` is a count of at least 1). In the game `have` counts every available copy, equipped ones included, while `itemAmount` counts the inventory alone; the model does not tell the two apart.
- The wanderer, runaway, free-kill, yellow-ray and force-item catalogues are not modelled, except for the cursed magnifying glass and the Asdon bumper's availability rule. The runaway entry at src/engine/resources.ts:217-232 repeats that rule.
- The `prepare` hooks (`AsdonMartin.fillTo`, `dimesForGarters`), `ensureFluffers` with its price comparison, and the actions of tasks other than "Flyers End" and the pyramid rotation are left out. They call into the game or the mall.
- War.CorrectFlyers: `visitUrl`, `refresh inv` and the `debug` messages are not modelled. Whether the flyers are still held after the refresh is the parameter `stillHoldFlyers`.
- Macguffin.Pyramid.RotatePyramid: `buy` is assumed to deliver the requested ratchets. The game's answer to a control-room choice is a model assumption, stated by `Chosen`: one step through 1..5, spending the item, and nothing without it. The `visitUrl` calls outside the loop (entering the control room and leaving it) are not modelled, and the thrown message carries only the goal.
- Macguffin.MilestonesReach assumes five points of exploration per milestone, which the game grants and the script does not state.
- "Find Gnasir", "Initial Milestones" and the desert-exploration tasks other than the two Gnasir-bitmask ones are not modelled. Level 4 is not part of this model.
