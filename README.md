# Beauty Ice Breaker: a Dafny model of the game's rules

Beauty Ice Breaker is a Phaser browser game. The player fires bombs from a slingshot at a wall of ice blocks laid over a picture. Every block destroyed reveals more of the picture. A level is won once enough of it is revealed, and lost when the bombs run out first. Won levels earn stars on a story map and unlock the level's picture in an album. The repository also holds two Python helpers: a development HTTP server with single-page routing, and a one-off script that removes a duplicated method from the game scene's source.

This project models the sequential rules under the rendering, physics and timers. The files follow the source files. Game objects are records, or classes with the source's fields:

- `clean_duplicates.dfy`: the brace-counting block finder and the splice of clean_duplicates.py.
- `serve.dfy`: the route rewrite and the added headers of serve.py's request handler.
- `block_types.dfy`: the block type tables of js/BlockTypes.js, with their fallback to STANDARD.
- `block_manager.dfy`: health, damage and destruction of ice blocks, the radius sweep, the reveal percentage, grid padding, the Fisher–Yates shuffle and the choice of dynamite cells (js/managers/BlockManager.js).
- `ordered_map.dfy`: JavaScript objects used as dictionaries, keeping the key order that `Object.keys` reports.
- `bombs.dfy` and `bomb_names.dfy`: the bomb objects and the bomb type names.
- `bomb_manager.dfy`: the bomb inventory of js/managers/BombManager.js.
- `game_rules.dfy` and `game.dfy`: js/scenes/GameScene.js and js/managers/GameStateManager.js. This covers the inventory, reveal progress and score, victory with its stars, game over with its wait for the last bomb, and the manager's failsafe. It also covers how explosions from js/BombUtils.js change the scene's blocks.
- `bomb_utils.dfy`: how an explosion chooses its blocks, and the driller's start-up (js/BombUtils.js).
- `collision.dfy`: the bomb-against-block outcome table and the pair loop of js/managers/CollisionManager.js.
- `launcher.dfy` and `input_handler.dfy`: the slingshot's guards and flags (js/BombLauncher.js) and the pointer handling that fires and counts shots (js/BombInputHandler.js).
- `level_manager.dfy`: the level cursor, default level configurations and getters (js/LevelManager.js).
- `story_map.dfy`: the level chain and player progress (js/scenes/StoryMapScene.js).
- `album.dfy`: the picture album's unlock rule and pages (js/scenes/AlbumScene.js).
- `state_manager.dfy`: the generic state machine (js/states/StateManager.js).
- `editor.dfy`: the level editor's block-layout codec (js/scenes/EditorScene.js).
- `audio_manager.dfy`: the congratulation text, the special-clear text and the sound bookkeeping (js/managers/AudioManager.js).
- `text.dfy` and `wrappers.dfy`: ASCII case mapping and an `Option` type.

Where the source updates objects in place, the model has classes with `modifies` clauses. Each such method states its new state as a function of the old one, and lemmas prove what the source promises about those functions. Randomness, wall-clock time, the file system and stored progress become parameters.

## Model

| member | source | states |
|---|---|---|
| CleanDuplicates.ContainsChar | clean_duplicates.py:11 | `c in line` for a one-character pattern is membership of that character |
| CleanDuplicates.CandidateFrom | clean_duplicates.py:10-12 | the start line is the first line past line 5000 that names cleanupIceBlocksArray and holds `{`, or -1 when there is none |
| CleanDuplicates.OutputPath | clean_duplicates.py:32 | the output file is the input path with `.fixed` appended, never the input itself |
| CleanDuplicates.FindBlock | clean_duplicates.py:8-23 | the search loop returns the first candidate and the line where its brace depth first returns to zero |
| CleanDuplicates.Clean | clean_duplicates.py:25-36 | with a start and an end found, exactly the spliced lines are written to the `.fixed` file; otherwise nothing is written |
| CleanDuplicates.ClosingFromBounds | clean_duplicates.py:15-22 | the closing line found is -1 or a line index after the start |
| CleanDuplicates.ClosingFromIsFirstZero | clean_duplicates.py:14-22 | the closing line is the first line after the start where the running brace count reaches zero, and -1 iff it never does |
| CleanDuplicates.EndAfterStart | clean_duplicates.py:10-23 | a found end lies after the start, with depth zero there and non-zero in between |
| CleanDuplicates.BothBracesKeepDepth | clean_duplicates.py:16-19 | a line holding both `{` and `}` leaves the brace count unchanged |
| CleanDuplicates.SplicedShape | clean_duplicates.py:27-29 | the splice keeps the lines before the start, puts the three replacement lines in place of start..end, and keeps the rest after them |
| CleanDuplicates.OnlyFirstCandidateExamined | clean_duplicates.py:10-23 | only the first candidate is examined: when its block never closes, a later closed candidate is not tried |
| Serve.PrefixLen | serve.py:29-30 | the length of the prefix that holds none of the stop characters, stopping at the first one |
| Serve.UrlPath | serve.py:29-30 | the URL path is a prefix of the request target and holds no `?` or `#` |
| Serve.Basename | serve.py:33 | the basename is the suffix after the last `/` |
| Serve.Route | serve.py:27-40 | the path served is either the request target itself or `/index.html` |
| Serve.CorsRequestHandler.constructor | serve.py:19 | a handler starts with the request's path and no headers sent |
| Serve.CorsRequestHandler.DoGet | serve.py:27-40 | do_GET replaces `self.path` by the routed path and serves it |
| Serve.CorsRequestHandler.EndHeaders | serve.py:20-25 | end_headers sends the three CORS and cache headers, in order, before ending the headers |
| Serve.AssetUntouched | serve.py:32-34 | a path whose basename has a dot and that does not end in `.html` is served as requested |
| Serve.RootRewritten | serve.py:37-38 | the root path is rewritten to `/index.html` |
| Serve.MissingRewritten | serve.py:37-38 | a non-asset path that names no existing file is rewritten to `/index.html` |
| Serve.ExistingPageServed | serve.py:37-40 | a non-asset path other than the root that names an existing file is served as requested |
| Serve.QueryIgnored | serve.py:29-30 | a query string does not change the routing decision |
| Serve.RouteRewritesIff | serve.py:32-40 | the target is rewritten exactly when the rewrite condition holds, and kept otherwise |
| Serve.PrefixLenStops | serve.py:29-30 | the prefix ends at the first stop character |
| Serve.RouteIdempotent | serve.py:27-40 | routing a routed path again changes nothing |
| Serve.PrefixLenNoStops | serve.py:29-30 | without stop characters the whole string is the prefix |
| Text.LowerUpperStr | js/scenes/EditorScene.js:67-71 | a string without capitals comes back from upper-casing and then lower-casing unchanged |
| Text.LowerStrIdempotent | js/managers/AudioManager.js:433-434 | lower-casing twice is lower-casing once, and leaves no capitals |
| OrderedMap.Put | js/managers/BombManager.js:330-334 | assigning a key keeps an existing key's place and appends a new key, with the key set to the new value |
| OrderedMap.SetAll | js/managers/BombManager.js:133-140 | setting every key to one value keeps the keys and their order |
| OrderedMap.FirstPositiveIn | js/managers/BombManager.js:340-350 | the key found is the first in order with a positive count, and none is found iff no key has one |
| OrderedMap.FirstPositiveIffAny | js/managers/BombManager.js:340-350 | a first positive key exists exactly when some count is positive |
| BlockTypes.ValidTypesExactly | js/BlockTypes.js:94-96 | exactly the five type names are valid, and null or undefined is not |
| BlockTypes.TablesCoverTypes | js/BlockTypes.js:17-59 | the colour, alpha and hit-point tables have entries for exactly the five types |
| BlockTypes.HitPointsPerType | js/BlockTypes.js:53-59 | standard 1, strong 2, dynamite 1, eternal 3, bouncy 1 hit points |
| BlockTypes.UnknownFallsBackToStandard | js/BlockTypes.js:67-87 | an unknown type reads the STANDARD colour, alpha and hit points |
| BlockTypes.ValidReadsOwnEntry | js/BlockTypes.js:67-87 | a valid type reads its own entry in every table |
| BlockTypes.HitPointsPositive | js/BlockTypes.js:85-87 | getHitPoints is always between 1 and 3 |
| Bombs.LaunchedBomb.constructor | js/BombLauncher.js:156-197 | a bomb image starts static, visible, in the scene, with its launch and hit flags cleared, with no driller data and the given type and power |
| Bombs.LaunchedBomb.MarkExploded | js/BombUtils.js:1436-1441 | the bomb is marked exploded and leaves the scene |
| Bombs.StickyBomb.constructor | js/BombUtils.js:392-410 | a sticky record starts active at the given position with its sprite in the scene |
| Bombs.DrillerData.constructor | js/BombUtils.js:669-689 | a driller record starts active at the given position and duration, not completed and not triggered externally |
| Bombs.DrillerData.CompleteDrilling | js/BombUtils.js:693-712 | completing drilling makes the record inactive and completed, is harmless when it already completed, and keeps position, duration and the other flags |
| Launcher.ValidateBombType | js/BombLauncher.js:229-273 | an empty type becomes the blast bomb, a short name becomes its full name, a loaded texture is kept, and the result is always a loaded texture or a launchable type |
| Launcher.ValidateBombTypeIdempotent | js/BombLauncher.js:229-273 | when every launchable type is loaded, validating yields a loaded texture and validating twice equals validating once |
| Launcher.LaunchLockAsWritten | js/BombLauncher.js:579-618 | the launch lock as written: a launch happens exactly when not already launching, ready, with coordinates and a long drag, and a set lock stays set |
| Launcher.LaunchLock | js/BombLauncher.js:579-618 | the corrected lock: the same launch condition, and a lock that was clear is clear again after every call |
| Launcher.LockedForever | js/BombLauncher.js:600-603 | once the lock is set, as written, every later sequence of calls launches nothing |
| Launcher.ShortDragLocksLauncher | js/BombLauncher.js:613-618 | as written, one short drag sets the lock, and a following perfect launch attempt is refused |
| Launcher.NeverLocked | js/BombLauncher.js:583-1017 | with the corrected lock, no sequence of calls leaves the launcher locked |
| Launcher.LaunchAfterAnything | js/BombLauncher.js:583-1017 | with the corrected lock, after any history a ready long drag with coordinates launches one more bomb |
| Launcher.Aimed | js/BombLauncher.js:1380-1387 | the scene's aiming flag is written only when the scene has one, is cleared when aiming stops, and nothing else in the control record changes |
| Launcher.NewDynamicBomb | js/BombLauncher.js:653-726 | the dynamic bomb is fresh, launched, off the slingshot, moving, flagged sticky, driller or ricochet by its type, and a driller stores its drag distance capped at 200 |
| Launcher.BombLauncher.constructor | js/BombLauncher.js:10-40 | a new launcher holds no bomb, is neither aiming nor launching, has a zero bomb state, takes the scene's debug mode and clears the scene's launcher flag |
| Launcher.BombLauncher.IsBombActiveIsTheFlag | js/BombLauncher.js:1045-1058 | a bomb counts as active exactly when the active flag is set or the held bomb is dynamic and visible |
| Launcher.BombLauncher.GetActiveLaunchedBomb | js/BombLauncher.js:91-105 | the result is the held bomb only when it is in the scene, launched, off the slingshot and the bomb state is active; otherwise none |
| Launcher.BombLauncher.SetAiming | js/BombLauncher.js:1380-1394 | the launcher's aiming flag becomes the argument and the scene's flag follows it; bomb, lock and bomb state are unchanged |
| Launcher.BombLauncher.CreateBomb | js/BombLauncher.js:130-227 | while creation is pending only aiming is cleared; otherwise a fresh static bomb of the validated type is placed at the slingshot and the reset time is recorded |
| Launcher.BombLauncher.CreationPendingExpires | js/BombLauncher.js:1006-1008 | the delayed callback clears only the pending-creation flag |
| Launcher.BombLauncher.LaunchBomb | js/BombLauncher.js:578-1038 | the launch result and the new lock are the corrected lock of the old state; a refused call changes no bomb; a short drag replaces the bomb; a launch fires it; bombs, type and progress are unchanged |
| Launcher.BombLauncher.Fire | js/BombLauncher.js:628-1017 | firing replaces the held bomb by a fresh dynamic bomb of the same type, records the fire time, marks creation pending and the bomb active, and stops aiming |
| Launcher.BombLauncher.CheckForMissedBombs | js/BombLauncher.js:1065-1115 | a bomb is handled exactly when one is held, active and more than 100 pixels outside the game area; then it is destroyed and the active flag cleared; otherwise nothing changes |
| Launcher.BombLauncher.MissedBombTimer | js/BombLauncher.js:1097-1106 | two seconds later, with no shots left the level completion check runs; with shots left a fresh bomb of the scene's type (or the plain bomb) is created |
| Launcher.BombLauncher.ToggleDebugMode | js/BombLauncher.js:1312-1336 | debug mode becomes the given value, or flips when none is given, in the launcher and in the scene; nothing else changes |
| InputHandler.TouchRadiusBounds | js/BombInputHandler.js:92-99 | a touch on the bomb always starts aiming, one at least 120 pixels away never does, and the mobile radius accepts everything the desktop radius does |
| InputHandler.AimReset | js/BombInputHandler.js:313-348 | resetting clears the scene's aiming flag and changes nothing else in the control record |
| InputHandler.Cancelled | js/BombInputHandler.js:193-208 | a cancel stops aiming, clears the launcher flag unless a bomb creation is pending, and keeps bombs, type and progress |
| InputHandler.CancelBombType | js/BombInputHandler.js:199-200 | the recreated bomb uses the scene's current type, or the plain bomb when there is none |
| InputHandler.CancelSpendsABomb | js/BombInputHandler.js:193-216 | a cancelled aim costs one bomb of the current type when one is left, costs no shot, and otherwise leaves the counts alone |
| InputHandler.FireGuardEvents | js/BombInputHandler.js:249-276 | the guards that stop a shot play the error sound exactly for no shots left or none of the current type left, and are silent for a missing or active bomb |
| InputHandler.BombInputHandler.constructor | js/BombInputHandler.js:6-15 | a new handler holds its scene and launcher and is not aiming |
| InputHandler.BombInputHandler.ResetAimState | js/BombInputHandler.js:313-348 | aiming stops in the handler, the launcher and the scene; bomb, lock and bomb state are unchanged |
| InputHandler.BombInputHandler.HandlePointerDown | js/BombInputHandler.js:74-133 | aiming starts exactly when shots remain, a visible bomb is held and the touch lands within the device's radius; otherwise nothing changes |
| InputHandler.BombInputHandler.HandlePointerCancel | js/BombInputHandler.js:193-216 | a cancel resets aiming, clears the launcher flag unless creation is pending, creates a fresh static bomb when allowed and spends one bomb of the current type |
| InputHandler.BombInputHandler.HandlePointerUp | js/BombInputHandler.js:157-189 | a release without coordinates only resets aiming; a launch costs exactly one shot; aiming always ends |
| InputHandler.BombInputHandler.FireBomb | js/BombInputHandler.js:249-308 | a blocked shot changes nothing but aiming and the error events; otherwise the shot is launched and counted as in the corrected lock |
| InputHandler.BombInputHandler.LaunchAndCount | js/BombInputHandler.js:278-307 | a launched shot leaves a fresh launched bomb, one shot fewer and the bomb count decremented; a refused one keeps shots and bombs |
| InputHandler.BombInputHandler.CountShot | js/BombInputHandler.js:284-297 | counting a shot lowers the shots by one and announces it, decrements the bomb type's count and plays the launch sound |
| Editor.MappingOf | js/scenes/EditorScene.js:67-71 | the table maps the upper-case name of every listed type, and every entry maps an upper-case name back to a listed type with that upper-case form |
| Editor.TypesAreLowerCase | js/BlockTypes.js:17-96 | every block type name is a non-empty lower-case string |
| Editor.TypeMappingLowerCases | js/scenes/EditorScene.js:67-71 | the editor's table maps each key to its lower-case form, which is a block type, and covers the upper-case form of every block type |
| Editor.LowerOfUpper | js/scenes/EditorScene.js:290 | upper-casing before lower-casing does not change the lower-case form, and the converse |
| Editor.MapTypeIgnoresCase | js/scenes/EditorScene.js:290 | a type name is recognised whatever its case, yields its lower-case block type, falls back to the standard type otherwise, and always yields a block type |
| Editor.Place | js/scenes/EditorScene.js:292-295 | a group's positions become one entry each, in order, with the group's mapped type |
| Editor.FileBlockSize | js/scenes/EditorScene.js:301 | a file without a block size uses the old default 40, a non-zero size is used as given, and the size is never zero |
| Editor.GridEntries | js/scenes/EditorScene.js:302-308 | every old-format grid block becomes one entry, in order, at its cell's centre |
| Editor.AbsoluteEntriesCount | js/scenes/EditorScene.js:288-298 | reading the absolute format yields one entry per listed position |
| Editor.ParsedTypesKnown | js/scenes/EditorScene.js:290 | every entry read with the editor's table has a known block type |
| Editor.GridCentreInCell | js/scenes/EditorScene.js:301-306 | with a positive block size, an old-format block lands strictly inside its grid cell |
| Editor.CellCentre | js/scenes/EditorScene.js:341-345 | a click snaps to the centre of the 20-pixel cell that contains it |
| Editor.FindNear | js/scenes/EditorScene.js:347-350 | the search finds the first block within 2 pixels of the centre on both axes, or reports that none is |
| Editor.ClickRemovesFirstNear | js/scenes/EditorScene.js:352-354 | a click on an occupied cell removes exactly the first block there |
| Editor.ClickAddsAtCentre | js/scenes/EditorScene.js:355-358 | a click on a free cell appends one block at the cell centre with the selected type |
| Editor.ClickTwiceRestores | js/scenes/EditorScene.js:341-363 | clicking the same free cell twice restores the layout |
| Editor.Round | js/scenes/EditorScene.js:541 | rounding yields the whole number within half a unit, halves rounding up |
| Editor.GroupByType | js/scenes/EditorScene.js:537-542 | the blocks are grouped under their upper-case types: every block's key is present and every key belongs to some block |
| Editor.GeneratedGroupsPerType | js/scenes/EditorScene.js:537-552 | the layout holds exactly one group per distinct upper-case type present in the editor |
| Editor.Reread | js/scenes/EditorScene.js:290 | reading back keeps the number of blocks |
| Editor.GroupByTypeKeepsBlocks | js/scenes/EditorScene.js:537-542 | grouping loses and invents no block: the groups hold the rounded, retyped blocks as a multiset |
| Editor.ParseGroupsIsFlat | js/scenes/EditorScene.js:288-298 | reading the generated groups yields their positions group by group, one entry per position |
| Editor.GenerateThenParse | js/scenes/EditorScene.js:281-309 | generating a layout and reading it back yields as many blocks as were placed, and the same blocks up to order once rounded and retyped |
| Editor.RereadKnown | js/scenes/EditorScene.js:290 | blocks at whole coordinates with known types are unchanged by rounding and retyping |
| Editor.RoundTrip | js/scenes/EditorScene.js:281-309 | for blocks at whole coordinates with known types, saving and reloading a layout gives back the same blocks up to order |
| Editor.EditorScene.constructor | js/scenes/EditorScene.js:2-27 | a new editor has no blocks, an empty type table and the standard type selected |
| Editor.EditorScene.PopulateBlockTypeMapping | js/scenes/EditorScene.js:67-71 | the loop adds the upper-case name of every block type to the table and changes nothing else |
| Editor.EditorScene.ParseAndStoreBlockLayout | js/scenes/EditorScene.js:281-309 | the stored blocks become exactly the reading of the given layout, empty when there is none |
| Editor.EditorScene.AddGroup | js/scenes/EditorScene.js:289-297 | one group appends its entries, or nothing when it has no type or no position list |
| Editor.EditorScene.HandleGridClick | js/scenes/EditorScene.js:341-363 | the blocks become the result of the click on the old blocks |
| Editor.EditorScene.ClearAllBlocksInternal | js/scenes/EditorScene.js:363-368 | all blocks are removed and nothing else changes |
| Editor.EditorScene.GenerateBlockLayout | js/scenes/EditorScene.js:537-552 | the loop's layout is the grouped, rounded layout of the stored blocks |
| GameRules.SelectBombType | js/scenes/GameScene.js:2021-2134 | selecting a type makes it current, keeps the counts, creates a bomb of that type unless the player is aiming, and announces the selection |
| GameRules.HandleSelectionRequest | js/scenes/GameScene.js:3751-3762 | a request for a type with bombs left selects it; any other request only plays the error sound |
| GameRules.Nine | js/scenes/GameScene.js:1998-2012 | the nine counts are stored under the nine bomb keys in their fixed order, and non-negative counts give a non-negative table |
| GameRules.ResetCounts | js/scenes/GameScene.js:1998-2015 | a reset sets every count to zero except 3 melter bombs, under the nine bomb keys |
| GameRules.FallbackTable | js/scenes/GameScene.js:2955-3045 | every level's fallback has 4 shrapnel and 3 cluster bombs and no negative count |
| GameRules.FallbackTypeIndex | js/scenes/GameScene.js:2972-3041 | the fallback's chosen type for every level is a stocked one |
| GameRules.FallbackCounts | js/scenes/GameScene.js:2955-3045 | the fallback table uses the nine bomb keys and selects the level's chosen type |
| GameRules.FallbackSelectsStocked | js/scenes/GameScene.js:2955-3045 | the fallback never selects a type with no bombs, and always stocks 4 shrapnel and 3 cluster bombs |
| GameRules.SetupBombs | js/scenes/GameScene.js:2886-2951 | setting up bombs changes only the counts and the current type |
| GameRules.SetupSelectsStocked | js/scenes/GameScene.js:2922-2941 | after setup the current type always has bombs; with none configured the player gets one blast bomb; an unlocked type with bombs is selected first |
| GameRules.InitialTypeStocked | js/scenes/GameScene.js:2922-2941 | for any inventory the chosen type has bombs: the unlocked type when it has some, else the first type in stock, else blast with one bomb added |
| GameRules.ApplyLevelEntriesValid | js/scenes/GameScene.js:2901-2912 | copying the level's counts keeps the table well formed and loses no key |
| GameRules.LevelCountTaken | js/scenes/GameScene.js:2903-2905 | a known bomb key with a numeric level count gets exactly that count |
| GameRules.OtherCountsZero | js/scenes/GameScene.js:2891-2909 | every other key keeps the zero it was reset to |
| GameRules.ApplyLevelEntryAt | js/scenes/GameScene.js:2901-2912 | one level entry: a known type with a number takes that number, a non-number becomes 0, an unknown type with a number is skipped, and no other key changes |
| GameRules.Decrement | js/scenes/GameScene.js:846-893 | a type with no bombs left (or unknown) changes nothing; otherwise its count drops by one |
| GameRules.DecrementOnlyThatType | js/scenes/GameScene.js:846-893 | decrementing keeps the table non-negative, keeps its keys and every other count, and lowers that type's count by one when it had bombs |
| GameRules.DecrementToZero | js/scenes/GameScene.js:861-885 | spending the last bomb of a type switches to the first stocked type when there is one, and otherwise ends the game when the level is lost and no bomb is in flight |
| GameRules.SceneCheckGameOver | js/scenes/GameScene.js:1088-1143 | the scene's game-over check never touches counts, type, progress, the bomb or aiming, never completes a level and never undoes a game over |
| GameRules.ManagerCheckGameOver | js/managers/GameStateManager.js:336-379 | the same frame holds for the manager's game-over check |
| GameRules.GameOverOnlyWhenLost | js/scenes/GameScene.js:1121-1142 | either check ends the game only when no bomb is left and the target is not met, records the setter, emits the game-over event and clears the active flags |
| GameRules.LostLevelEnds | js/scenes/GameScene.js:1088-1143 | a lost level that is not already over or complete ends, and any victory delay is cancelled |
| GameRules.LastBombDefersGameOver | js/managers/GameStateManager.js:352-374 | while the last bomb flies the manager waits and the game goes on; once it lands the check ends a lost game and stops waiting |
| GameRules.WaitingHoldsWhileInFlight | js/managers/GameStateManager.js:365-374 | while waiting and a bomb is in flight, the manager keeps waiting and decides nothing |
| GameRules.Stars | js/scenes/GameScene.js:1042-1050 | stars are 3 at 100 percent, at least 2 from 92, at least 1 from 85, and 0 below |
| GameRules.StarsMonotone | js/scenes/GameScene.js:1042-1050 | more reveal never earns fewer stars |
| GameRules.CompletionStartsVictory | js/scenes/GameScene.js:1016-1086 | the victory delay starts exactly when the level is won, not already over, not delayed and not waiting on the last bomb; it snapshots level, stars, score and reveal; only a lost level can end the game here |
| GameRules.VictoryDelayEnds | js/scenes/GameScene.js:1057-1082 | when the delay ends the victory screen is shown and the level completes, unless the game ended meanwhile |
| GameRules.GameOverCancelsVictory | js/scenes/GameScene.js:1095-1100 | a game over during the victory delay cancels it |
| GameRules.RevealOf | js/scenes/GameScene.js:962 | the reveal percentage lies between 0 and 100 and is 100 once every block is cleared |
| GameRules.RevealMonotone | js/scenes/GameScene.js:962 | clearing more blocks never lowers the reveal percentage |
| GameRules.CountCleared | js/scenes/GameScene.js:960-963 | a cleared block adds one to the cleared count and 10 to the score, and sets the reveal percentage |
| GameRules.UpdateRevealCounts | js/scenes/GameScene.js:958-1013 | the update counts the block, adds 10 points, keeps the reveal within bounds, moves the voice mark only on a large enough change, and can end the game only when the level is lost |
| GameRules.FullClearWins | js/scenes/GameScene.js:1010-1012 | clearing the last block starts a 3-star victory |
| GameRules.ManagerCheckLevelCompletion | js/managers/GameStateManager.js:18-23 | the manager marks the level complete once the target is reached and changes nothing else |
| GameRules.ResetGameState | js/managers/GameStateManager.js:479-490 | the reset clears game over, level complete, the setter and all manager flags, and nothing else |
| GameRules.ResetAllowsGameOver | js/managers/GameStateManager.js:479-490 | after a reset a lost level can end again |
| GameRules.FailsafeCases | js/managers/GameStateManager.js:382-447 | an idle launched ricochet bomb is never reset, any other idle bomb is; the missing-bomb case needs 15 seconds, shots left and a running level; nothing happens before the scene is ready |
| GameRules.RicochetExempt | js/managers/GameStateManager.js:392-399 | an idle ricochet bomb leaves the state unchanged |
| Game.Without | js/BombUtils.js:1685-1687 | filtering a block out of a list keeps exactly the other entries |
| Game.ActiveOnly | js/scenes/GameScene.js:899-911 | the cleaned list keeps exactly the listed blocks that exist and are active |
| Game.ActiveOnlyKeepsActive | js/scenes/GameScene.js:899-911 | a list of active blocks survives cleaning unchanged |
| Game.ActiveOnlyIdempotent | js/scenes/GameScene.js:899-911 | cleaning twice is cleaning once |
| Game.DestroyIceEffect | js/BombUtils.js:1650-1710 | destroying a block makes it inactive, takes dynamite off the dynamite list, counts it as cleared and scores 10, and changes no other block |
| Game.DestroyIceHasNoGuard | js/BombUtils.js:1650-1710 | the destruction itself has no guard: destroying the same block twice counts it twice |
| Game.DamageIceSpec | js/scenes/GameScene.js:2684-2711 | a missing, inactive or eternal block is untouched and not destroyed; any other loses one hit and is destroyed exactly when no hits remain |
| Game.CallbacksRecheck | js/BombUtils.js:1798-1856 | a scheduled destruction, damage or dynamite trigger on an inactive block does nothing |
| Game.FireDestroyOnce | js/BombUtils.js:1798-1812 | a second scheduled destruction of a block does nothing; the first counts it once |
| Game.ChainSkipsTrigger | js/BombUtils.js:1833-1856 | a triggered dynamite block is destroyed first, so the chain explosion it sets off never lists it again |
| Game.NormalizeBlockType | js/scenes/GameScene.js:595-620 | a new block always gets a known type |
| Game.NormalizeBlockTypeSpec | js/scenes/GameScene.js:595-620 | a known type in any case is kept in lower case; an unknown or missing one becomes the standard type |
| Game.CreateBlockSpec | js/scenes/GameScene.js:595-755 | a new block gets a fresh id, a known type and at least one hit, joins the ice list (and the dynamite list when it is dynamite), keeps every old block and raises the block total by one |
| Game.NextLevelOnce | js/scenes/GameScene.js:3764-3797 | going to the next level happens once: a second request changes nothing, and without the interface scene the story screen is started directly with one star |
| Game.ShowCongratulationStable | js/scenes/GameScene.js:3527-3540 | showing the formatted message again leaves it unchanged |
| Game.StickyKept | js/scenes/GameScene.js:2149-2160 | the sticky bombs kept are exactly the live ones out of the blast's reach |
| Game.StickyTriggered | js/scenes/GameScene.js:2149-2160 | the sticky bombs triggered are exactly the live ones within the blast's reach |
| Game.DrillerKept | js/scenes/GameScene.js:2163-2185 | the driller bombs kept are exactly the valid ones that are not completed, already triggered, or out of reach |
| Game.DrillerTriggered | js/scenes/GameScene.js:2163-2185 | the driller bombs triggered are exactly the completed, untriggered ones within reach |
| Game.StickyPartition | js/scenes/GameScene.js:2149-2160 | every live sticky bomb is either kept or triggered, never both; a dead one is dropped |
| Game.DrillerPartition | js/scenes/GameScene.js:2163-2185 | every valid driller bomb is either kept or triggered, never both |
| Game.NoStickyHit | js/scenes/GameScene.js:2149-2160 | a blast that reaches no sticky bomb triggers none |
| Game.NoDrillerHit | js/scenes/GameScene.js:2163-2185 | a blast that reaches no driller bomb triggers none |
| Game.RetriggerFindsNothing | js/scenes/GameScene.js:2138-2220 | a second blast at the same place triggers nothing more |
| Game.FilterStickyBombs | js/scenes/GameScene.js:2149-2160 | the loop returns the kept and triggered lists and deactivates exactly the triggered bombs |
| Game.FilterDrillerBombs | js/scenes/GameScene.js:2163-2185 | the loop returns the kept and triggered lists and marks exactly the triggered drillers spent |
| Game.GameStateManager.constructor | js/managers/GameStateManager.js:3-10 | a new manager belongs to its scene |
| Game.GameStateManager.CheckLevelCompletion | js/managers/GameStateManager.js:18-23 | the scene's state becomes the manager's completion rule applied to it |
| Game.GameStateManager.CheckGameOver | js/managers/GameStateManager.js:336-379 | the scene's state becomes the manager's game-over rule applied to it |
| Game.GameStateManager.ForceResetGameState | js/managers/GameStateManager.js:450-477 | a forced reset runs the scene's completion check |
| Game.GameStateManager.CheckGameState | js/managers/GameStateManager.js:382-447 | the failsafe applies the checked rule to the scene's state |
| Game.GameStateManager.ResetGameState | js/managers/GameStateManager.js:479-490 | the scene's state becomes its reset |
| Game.GameStateManager.Shutdown | js/managers/GameStateManager.js:493-497 | shutting down clears only the last-bomb flags |
| Game.GameScene.constructor | js/scenes/GameScene.js:2-99 | a new scene has the reset counts with the blast bomb current, nothing cleared, no blocks, no bomb lists and a fresh manager |
| GameRules.NewGameFlowStart | js/scenes/GameScene.js:112-139 | a new game's inventory is the reset one with blast selected; nothing is cleared, scored or revealed; 999 shots, the level's target, neither outcome, no bomb active and no event |
| Game.GameScene.SelectBombType | js/scenes/GameScene.js:2021-2134 | the scene's state becomes the selection rule applied to it |
| Game.GameScene.HandleBombTypeSelectionRequest | js/scenes/GameScene.js:3751-3762 | the scene's state becomes the request rule applied to it |
| Game.GameScene.DecrementBombCount | js/scenes/GameScene.js:846-893 | the scene's state becomes the decrement rule applied to it |
| Game.GameScene.ResetBombCounts | js/scenes/GameScene.js:1998-2015 | the counts become the reset table and nothing else changes |
| Game.GameScene.SetupFallbackBombs | js/scenes/GameScene.js:2955-3045 | counts and current type become the level's fallback |
| Game.GameScene.ZeroBombCounts | js/scenes/GameScene.js:2891-2893 | the loop sets every count to zero, keeping the keys |
| Game.GameScene.ApplyLevelBombs | js/scenes/GameScene.js:2901-2912 | the loop copies the level's counts as the copying rule says |
| Game.GameScene.SetupBombs | js/scenes/GameScene.js:2886-2951 | the scene's state becomes the setup rule applied to it |
| Game.GameScene.SelectInitialBombType | js/scenes/GameScene.js:2922-2941 | the initial type is the unlocked type when stocked, else the first stocked type, else one blast bomb |
| Game.GameScene.UpdateRevealProgress | js/scenes/GameScene.js:958-1013 | the scene's state becomes the reveal update applied to it |
| Game.GameScene.CheckLevelCompletion | js/scenes/GameScene.js:1016-1086 | the scene's state becomes the completion rule applied to it |
| Game.GameScene.VictoryDelayFires | js/scenes/GameScene.js:1057-1082 | the scene's state becomes the end of the victory delay |
| Game.GameScene.CheckGameOver | js/scenes/GameScene.js:1088-1143 | the scene's state becomes the game-over rule applied to it |
| Game.GameScene.DamageIceBlock | js/scenes/GameScene.js:2684-2711 | blocks and state change as the damage rule says, and the result says whether the block was destroyed |
| Game.GameScene.CleanupIceBlocksArray | js/scenes/GameScene.js:899-911 | the ice list keeps only its active blocks and nothing else changes |
| Game.GameScene.CreateSingleBlock | js/scenes/GameScene.js:595-755 | blocks and state change as the creation rule says |
| Game.GameScene.TriggerStickyBomb | js/scenes/GameScene.js:2138-2220 | the bomb lists keep their untriggered bombs, the triggered ones are returned and deactivated, each sticky bomb yields a radius-440 detonation at its position, each driller the radius-360 blast categorisation at its position, and the result says whether any was triggered |
| Game.GameScene.SetOffBombs | js/scenes/GameScene.js:2138-2188 | the two filters keep the untriggered bombs and return and deactivate the triggered ones |
| Game.StickyDetonations | js/scenes/GameScene.js:2191-2197 | one radius-440 detonation per sticky bomb set off, at its position, in order |
| Game.DrillerExplosions | js/scenes/GameScene.js:2198-2203 | one radius-360 blast categorisation per driller set off, at its position, in order |
| Game.GameScene.HandleGoToNextLevel | js/scenes/GameScene.js:3764-3797 | the scene changes as the next-level rule says |
| Game.GameScene.DisplayCongratulationText | js/scenes/GameScene.js:3527-3540 | the congratulation text becomes the formatted message |
| Game.DestroyIceBlock | js/BombUtils.js:1650-1710 | the scene changes as the destruction rule says |
| Game.DestroyBlocksInRadius | js/BombUtils.js:1718-1754 | the callbacks scheduled are the blast's categorisation of the active blocks |
| Game.DestroyBlocksWithShatterer | js/BombUtils.js:1857-1934 | the callbacks scheduled are the shatterer's categorisation |
| Game.ProcessBlockDestruction | js/BombUtils.js:1798-1812 | a fired destruction changes the scene as its rule says |
| Game.ProcessBlockDamage | js/BombUtils.js:1813-1832 | a fired damage changes the scene as its rule says |
| Game.ProcessDynamiteTrigger | js/BombUtils.js:1833-1856 | a fired trigger changes the scene and schedules the chain as its rule says |
| Game.RicochetBlast | js/BombUtils.js:1452-1462 | the ricochet blast schedules the radius-150 categorisation, triggers the sticky and driller bombs within 150 and returns their detonations and blasts |
| Game.ExplodeRicochetBomb | js/BombUtils.js:1417-1532 | a missing, removed or exploded bomb changes nothing and sets nothing off; otherwise it is marked exploded and removed, the blast runs with its detonations, and the follow-ups are scheduled |
| Game.ExplodeLiveBomb | js/BombUtils.js:1420-1462 | a live bomb is marked exploded and removed, then the blast runs with its detonations |
| Game.HandleMelterBomb | js/BombUtils.js:1935-2074 | the melter's targets are the selection rule's |
| BombUtils.Categorize | js/BombUtils.js:1755-1789 | a block is listed to destroy, damage or trigger exactly when it is in the scene's list, active, strictly within the radius and of the kind for that list; the lists never outnumber the scene's |
| BombUtils.CategorizeSound | js/BombUtils.js:1755-1789 | only active blocks in reach that are not bouncy are listed, each in at most one list, and dynamite in reach is always triggered |
| BombUtils.ShattererDestroysHardBlocks | js/BombUtils.js:1857-1889 | the shatterer damages nothing: it destroys every block a blast would destroy or damage, and triggers the same dynamite |
| BombUtils.ShattererNoDamage | js/BombUtils.js:1857-1889 | with the shatterer flag the damage list stays empty for every block list |
| BombUtils.CategorizeBlocksByDistance | js/BombUtils.js:1755-1789 | the loop builds exactly the three lists of the categorisation |
| BombUtils.Closest | js/BombUtils.js:1945-1958 | the closest active block found is strictly within the 150-pixel search radius and no active block is nearer; none is found only at the search radius |
| BombUtils.ClosestNoneIff | js/BombUtils.js:1945-1958 | no block is found exactly when every active block is at least 150 pixels away |
| BombUtils.FindClosestBlock | js/BombUtils.js:1945-1958 | the loop finds the same block as the closest-block rule |
| BombUtils.SameTypeNear | js/BombUtils.js:1988-1998 | the others melted are exactly the active blocks of the target's type, other than the target, strictly within 250 pixels |
| BombUtils.MeltTargets | js/BombUtils.js:1984-2002 | the melt list starts with the target, holds at most 30 blocks, and every other entry is an active block of its type within 250 pixels |
| BombUtils.MeltTargetsComplete | js/BombUtils.js:1984-2002 | when the limit of 30 is not reached, every matching block nearby is melted |
| BombUtils.MelterSelectionSpec | js/BombUtils.js:1935-2002 | a melter on a live block melts it first; whatever it melts has one type and at most 30 blocks; it melts nothing exactly when it hit no live block and no active block is within 150 pixels |
| BombUtils.NormalizedPower | js/BombUtils.js:651-661 | the drill power is clamped between 0 and 1 |
| BombUtils.DivideMonotone | js/BombUtils.js:657 | dividing by a positive width keeps the order |
| BombUtils.DrillDurationBounds | js/BombUtils.js:651-664 | the drill lasts between the minimum and 3000 milliseconds, the minimum for a weak launch, the maximum for a full drag, and longer drags never drill shorter |
| BombUtils.DrillDurationRange | js/BombUtils.js:651-664 | every drill duration lies between 500 and 3000 milliseconds |
| BombUtils.DrillDurationWeakest | js/BombUtils.js:651-664 | a launch at or below the 20-pixel launch minimum drills for exactly 500 milliseconds |
| BombUtils.DrillDurationStrongest | js/BombUtils.js:651-664 | a drag at or beyond the maximum drills for exactly 3000 milliseconds |
| BombUtils.DrillDurationMonotone | js/BombUtils.js:651-664 | a stronger launch never drills for less time |
| BombUtils.HandleDrillerBomb | js/BombUtils.js:613-700 | a missing or removed bomb yields nothing; a bomb already drilling returns its data unchanged; otherwise it starts drilling once with a fresh record at the impact point for the power's duration |
| Collision.TypeOrBlast | js/managers/CollisionManager.js:255-256 | a bomb without a type is treated as a blast bomb; any other type is kept |
| Collision.HitMarksIce | js/managers/CollisionManager.js:251 | a hit always marks the bomb as having hit ice and never changes its type |
| Collision.BouncyBounces | js/managers/CollisionManager.js:255-270 | a non-sticky bomb on a bouncy block bounces: processed, not exploded, not stuck, and its exploded flag kept |
| Collision.StickyAndDrillerStick | js/managers/CollisionManager.js:326-365 | a sticky bomb, or a driller bomb on a non-bouncy block, sticks without exploding and is marked sticky or driller |
| Collision.RicochetNeither | js/managers/CollisionManager.js:367-383 | a ricochet bomb neither explodes nor sticks on a block, and stays a ricochet |
| Collision.StandardExplodes | js/managers/CollisionManager.js:308-324 | a standard bomb on a non-bouncy block explodes, and its type's handler is the last effect |
| Collision.ExplodedNotReapplied | js/managers/CollisionManager.js:293-295 | an already exploded bomb (other than sticky or driller) reports the explosion again and runs no handler again |
| Collision.PairStep | js/managers/CollisionManager.js:85-170 | a pair keeps the bomb's type, never undoes an explosion or a stick, and only appends effects |
| Collision.ProcessKeeps | js/managers/CollisionManager.js:85-172 | processing all pairs keeps the bomb's type and never undoes an explosion or a stick |
| Collision.StopsAfterExplosion | js/managers/CollisionManager.js:165-172 | once a standard bomb has exploded, the remaining pairs are not processed |
| Collision.NonStandardProcessesAll | js/managers/CollisionManager.js:85-172 | a sticky, driller or ricochet bomb never explodes in the loop, and every pair is processed |
| Collision.Finish | js/managers/CollisionManager.js:179-218 | after an explosion or a stick, a delayed reset is scheduled when shots remain and a completion check runs otherwise; an exploded standard bomb is removed |
| Collision.NonStandardSurvives | js/managers/CollisionManager.js:198-218 | a sticky, driller or ricochet bomb is never removed by the event |
| Collision.HandleBombToBlockCollision | js/managers/CollisionManager.js:246-400 | the bomb's flags, the outcome and the effects are the block-hit rule's; the bomb's other state is unchanged |
| Collision.ContactStep | js/managers/CollisionManager.js:85-170 | one pair changes the bomb and the running flags as the pair rule says |
| Collision.HandleCollisionStart | js/managers/CollisionManager.js:40-240 | a missing, exploded, inactive or bodiless bomb changes nothing; otherwise the bomb, effects and follow-up are those of processing the pairs |
| Collision.RunPairs | js/managers/CollisionManager.js:85-172 | the loop over the pairs ends in the processing rule's state |
| Collision.BorderNormalInward | js/managers/CollisionManager.js:440-470 | a border's normal is a unit vector along one axis, vertical for wide borders and horizontal for tall ones, pointing towards the middle of the view |
| BlockManager.GetBlockHealth | js/managers/BlockManager.js:456-469 | only eternal blocks have unlimited health |
| BlockManager.HealthTable | js/managers/BlockManager.js:456-469 | eternal is unlimited, strong 3, bouncy 2, dynamite and standard 1, and every other type between 1 and 3 |
| BlockManager.RemoveFirst | js/managers/BlockManager.js:521-524 | removing a block from a list drops one occurrence when present and nothing otherwise, keeps every other entry, and a list without repeats no longer holds it |
| BlockManager.RemoveVeilAt | js/managers/BlockManager.js:548-563 | the veil at the block's position is removed when there is one, and the list is unchanged otherwise |
| BlockManager.RadiusSweep | js/managers/BlockManager.js:720-738 | the sweep only sets destroyed flags, never clears one, and keeps the sum of cleared and live blocks |
| BlockManager.RadiusSweepExact | js/managers/BlockManager.js:720-738 | after the sweep every block that was destroyed, or was listed and is a live, non-eternal block within the radius, is destroyed, and nothing else about any block changes; when no listed dynamite is reached, these are exactly the destroyed blocks |
| BlockManager.SweepReaches | js/managers/BlockManager.js:720-738 | every listed live, non-eternal block within the radius is destroyed by the sweep, including those a chained dynamite reaches first |
| BlockManager.SweepNoChain | js/managers/BlockManager.js:720-738 | when no listed live dynamite lies within the radius, a block the sweep leaves destroyed was destroyed already or is a listed live, non-eternal block within the radius |
| BlockManager.SweepLists | js/managers/BlockManager.js:720-738 | the sweep takes exactly the newly destroyed blocks off the ice and dynamite lists, and each of them was listed or on the ice list |
| BlockManager.DamageRefused | js/managers/BlockManager.js:477-483 | a missing, destroyed or eternal block takes no damage and is reported not destroyed |
| BlockManager.DamageApplied | js/managers/BlockManager.js:486-495 | any other block loses the damage from its health and is destroyed exactly when its health is used up; a surviving block changes nothing else, and every block destroyed, the chain included, is counted as cleared (one for a non-dynamite block) |
| BlockManager.DestroyEffect | js/managers/BlockManager.js:503-530 | the first destruction marks the block destroyed and takes it off the ice list; only it and ice-list blocks are newly destroyed, and each of them leaves the ice list and is counted as cleared; a non-dynamite block changes exactly its own flag, one list entry and the count |
| BlockManager.DestroyLists | js/managers/BlockManager.js:503-530 | a destruction takes exactly the newly destroyed blocks off the ice and dynamite lists |
| BlockManager.DynamiteChains | js/managers/BlockManager.js:656-667 | a destroyed dynamite block leaves the dynamite list and destroys every live, non-eternal ice-list block within 60 of it |
| BlockManager.DynamiteChainsToNeighbour | js/managers/BlockManager.js:656-667 | a dynamite block with a standard block 30 away: destroying it destroys both, counts two cleared and takes both off the ice list |
| BlockManager.DestroyOnce | js/managers/BlockManager.js:503-504 | destroying a block a second time is refused and changes nothing |
| BlockManager.RevealBounds | js/managers/BlockManager.js:746-749 | the reveal percentage is the floor of cleared times 100 over total, lies in 0..100 while cleared does not exceed total, and is 100 when all are cleared |
| BlockManager.ClearedEmpty | js/managers/BlockManager.js:754-778 | after clearing, every list is empty, both counters are zero and the reveal percentage is 0 |
| BlockManager.BlockManager.constructor | js/managers/BlockManager.js:13-22 | a new manager has no blocks, veils or dynamite, and both counters are zero |
| BlockManager.BlockManager.DestroyBlock | js/managers/BlockManager.js:503-530 | the manager's state and the result are the destruction rule's, the dynamite chain included |
| BlockManager.BlockManager.DamageBlock | js/managers/BlockManager.js:477-496 | the manager's state and the result are the damage rule's |
| BlockManager.BlockManager.DestroyBlocksInRadius | js/managers/BlockManager.js:720-738 | the loop over a copy of the ice list ends in the sweep's state, the chained destructions included |
| BlockManager.BlockManager.SweepStep | js/managers/BlockManager.js:724-737 | one entry of the copy changes the state as one step of the sweep says |
| BlockManager.BlockManager.GetRevealPercentage | js/managers/BlockManager.js:746-749 | the percentage of the manager's current counters |
| BlockManager.BlockManager.ClearBlocks | js/managers/BlockManager.js:754-778 | the manager's state becomes the cleared state |
| BlockManager.Stamp | js/managers/BlockManager.js:202-213 | stamping a cell sets exactly the in-bounds cells within one row and column of it, and keeps every cell already set |
| BlockManager.AddPaddingToGrid | js/managers/BlockManager.js:196-219 | a cell of the padded grid is set exactly when some originally set cell lies within one row and one column of it |
| BlockManager.Pick | js/managers/BlockManager.js:274 | a random draw in [0, 1) picks an index no larger than the current one |
| BlockManager.Swap | js/managers/BlockManager.js:275 | swapping exchanges the two entries and keeps the others |
| BlockManager.ShuffleFrom | js/managers/BlockManager.js:272-278 | the shuffle keeps the length |
| BlockManager.Shuffled | js/managers/BlockManager.js:272-278 | the shuffle keeps the length |
| BlockManager.SwapPermutes | js/managers/BlockManager.js:275 | a swap is a permutation |
| BlockManager.ShufflePermutes | js/managers/BlockManager.js:272-278 | the Fisher-Yates shuffle is a permutation of its input |
| BlockManager.ShuffleArray | js/managers/BlockManager.js:272-278 | the in-place loop leaves the array holding the shuffle of its old contents |
| BlockManager.SelectDynamitePositions | js/managers/BlockManager.js:232-264 | with more than 3 set cells the result is the first 3 of the shuffled cell centres; otherwise it is empty |
| BlockManager.ValidPositionsAreCells | js/managers/BlockManager.js:236-244 | every collected position is a set cell's centre, in row-major order |
| BlockManager.TrueCellsRecorded | js/managers/BlockManager.js:236-244 | every set cell's centre is collected |
| BlockManager.DynamitePositionsDistinctCells | js/managers/BlockManager.js:232-264 | the 3 dynamite positions are distinct set cells of the grid, placed at their centres |
| BombManager.FallbackCounts | js/managers/BombManager.js:133-203 | every level's fallback table has a count for each of the seven types and gives the driller 6 |
| BombManager.BombTypesDistinct | js/managers/BombManager.js:18-26 | the seven bomb type names are pairwise distinct |
| BombManager.TableOf | js/managers/BombManager.js:136-144 | a fallback object literal holds exactly the seven types, in declaration order, with the listed counts |
| BombManager.BombManager.constructor | js/managers/BombManager.js:3-6 | a new inventory is empty and no type is selected |
| BombManager.BombManager.ZeroCounts | js/managers/BombManager.js:49-52 | every existing count becomes 0; key order and selection are kept |
| BombManager.BombManager.LoadCounts | js/managers/BombManager.js:55-71 | each level-data entry with a non-empty key and a numeric value is stored at twice its value, in key order; other entries are skipped |
| BombManager.BombManager.SetupBombs | js/managers/BombManager.js:44-94 | the inventory becomes the zeroed and loaded (or fallback) counts with the driller forced to 6 and, from level 2, ricochet raised to at least 4, followed by the initial selection; the result is true |
| BombManager.BombManager.SelectInitialBombType | js/managers/BombManager.js:103-126 | the counts and selection are those of the initial-selection rule, and some type is always selected |
| BombManager.BombManager.SetupFallbackBombs | js/managers/BombManager.js:129-204 | the whole inventory is replaced by the level's table and that table's type is selected |
| BombManager.BombManager.DecrementBombCount | js/managers/BombManager.js:330-351 | nothing changes unless the type has a positive count; otherwise only that count drops by one, and when it reaches 0 the selection moves to the first type still in stock, if any |
| BombManager.BombManager.SelectBombType | js/managers/BombManager.js:355-368 | the result is true exactly when the type has a positive count; only then does the selection change, and the counts never change |
| BombManager.SetupForcedCounts | js/managers/BombManager.js:77-86 | after setup the driller count is 6 and, from level 2, ricochet is the larger of its loaded count and 4 |
| BombManager.SetupNeverFallsBack | js/managers/BombManager.js:77-126 | after setup some type is always in stock, so the initial selection picks a type in stock and never needs the blast fallback |
| BombManager.InitialSelectionInStock | js/managers/BombManager.js:103-126 | the selected type is always in stock afterwards; an unlocked type in stock wins with no change, and with nothing in stock blast is selected with 6 bombs |
| BombManager.LoadDoubles | js/managers/BombManager.js:55-71 | starting from zeroed counts, a type named in level data with a numeric value ends at twice that value, and every other type keeps its count |
| BombManager.FallbackDriller | js/managers/BombManager.js:133-203 | every fallback branch sets all seven types, with driller 6, and selects one of the seven types |
| BombManager.DecrementKeepsNonNegative | js/managers/BombManager.js:332-333 | decrementing a type in stock keeps every count non-negative, lowers that type by exactly one and leaves every other type unchanged |
| LevelManager.BaseBombKeysDistinct | js/LevelManager.js:18-28 | the nine bomb keys of the base configuration are pairwise distinct |
| LevelManager.BombTable | js/LevelManager.js:18-28 | a default bomb table holds exactly the nine base keys, in base order, each with its listed number |
| LevelManager.NatText | js/LevelManager.js:223-226 | the decimal text of a level number is a non-empty string of digits |
| LevelManager.DefaultCounts | js/LevelManager.js:229-254 | every level's default counts cover the nine base keys and end with four shrapnel, three cluster and three melter |
| LevelManager.CreateDefaultLevelData | js/LevelManager.js:217-264 | the default configuration carries the level's number and the keys `chibi_girl{n}`, `victoryBackground{n}` and `background{n}`, and its parsed bombs equal its bombs |
| LevelManager.DefaultForcedBombs | js/LevelManager.js:229-254 | every default bomb table keeps the base keys and ends with shrapnel 4, cluster 3 and melter 3 |
| LevelManager.DefaultUnlockedBombs | js/LevelManager.js:238-249 | level 2 unlocks the piercer, 3 the cluster, 4 the sticky and 5 the shatterer bomb; every other level unlocks nothing |
| LevelManager.Max0 | js/LevelManager.js:272-276 | `Math.max(0, n)` is non-negative, at least n, and either 0 or n |
| LevelManager.DefaultCountKeysDistinct | js/LevelManager.js:270-278 | the eight keys of the default bomb counts are pairwise distinct |
| LevelManager.DefaultCountValues | js/LevelManager.js:270-278 | the eight default counts of a level are non-negative |
| LevelManager.CountTable | js/LevelManager.js:270-278 | a count table holds exactly the eight keys, in order, with the listed counts |
| LevelManager.CreateDefaultBombCounts | js/LevelManager.js:268-280 | the default counts of a level hold the eight keys with that level's values |
| LevelManager.DefaultBombCountsNonNegative | js/LevelManager.js:268-280 | every default count is non-negative |
| LevelManager.DefaultBombCountsByLevel | js/LevelManager.js:268-280 | blast and melter are 3, piercer is max(0, n-1), cluster and sticky max(0, n-2), shatterer and driller max(0, n-3), and ricochet is 2 exactly when n is at least 2, else 0 |
| LevelManager.BombCountsOf | js/LevelManager.js:331-343 | the bomb counts are the parsed ones when present, then the configured ones, then the base defaults |
| LevelManager.TargetOf | js/LevelManager.js:373-376 | the target is the configured one unless it is missing or 0, when it is 85; it is never 0 |
| LevelManager.BlockSizeOf | js/LevelManager.js:430-433 | the block size is the configured one unless it is missing or 0, when it is 40; it is never 0 |
| LevelManager.UnlockedOf | js/LevelManager.js:379-382 | the unlocked bomb is present exactly when the configuration names a non-empty one |
| LevelManager.DefaultGetters | js/LevelManager.js:217-264 | on a default configuration the getters give its own bomb table, target 85, block size 40 and the level's default unlocked bomb |
| LevelManager.SetLevelStep | js/LevelManager.js:309-319 | the level changes, and the result is true, exactly when the requested level lies in 1..30 |
| LevelManager.NextLevelStep | js/LevelManager.js:297-306 | the level goes up by one, and the result is true, exactly when it is below 30 |
| LevelManager.CursorStaysInRange | js/LevelManager.js:297-319 | starting in 1..30, setting or advancing the level keeps it in 1..30 |
| LevelManager.LevelManager.constructor | js/LevelManager.js:3-40 | a new manager is at level 1 with no loaded levels and the level-1 default cached |
| LevelManager.LevelManager.SetLevel | js/LevelManager.js:309-319 | the cursor and result follow the set-level rule; the configurations are unchanged |
| LevelManager.LevelManager.NextLevel | js/LevelManager.js:297-306 | the cursor and result follow the next-level rule; the configurations are unchanged |
| LevelManager.LevelManager.HasNextLevel | js/LevelManager.js:322-324 | true exactly when the current level is below 30 |
| LevelManager.LevelManager.GetCurrentLevelData | js/LevelManager.js:283-294 | a loaded level's configuration is returned as is; otherwise its default is created only if not already cached, and the cached one is returned |
| LevelManager.LevelManager.GetBombCounts | js/LevelManager.js:327-349 | the current configuration's bomb counts, by the preference rule |
| LevelManager.LevelManager.GetTargetPercentage | js/LevelManager.js:373-376 | the current configuration's target, with the fallback of 85 |
| LevelManager.LevelManager.GetBlockSize | js/LevelManager.js:430-433 | the current configuration's block size, with the fallback of 40 |
| LevelManager.LevelManager.GetUnlockedBombType | js/LevelManager.js:379-382 | the current configuration's unlocked bomb, or none |
| StoryMap.NodesChain | js/scenes/StoryMapScene.js:8-50 | the node table has thirty nodes, node k has id k, and each leads to the next except node 30, which leads nowhere |
| StoryMap.FindById | js/scenes/StoryMapScene.js:79-84 | a lookup by id returns a node of the table with that id, or nothing exactly when no node has it |
| StoryMap.FindByNext | js/scenes/StoryMapScene.js:183-187 | a lookup by successor returns a node leading to the target, or nothing exactly when no node does |
| StoryMap.FindNodeExact | js/scenes/StoryMapScene.js:84-86 | looking a level up by id finds node `id` exactly when it lies in 1..30 |
| StoryMap.PreviousNodeExact | js/scenes/StoryMapScene.js:183-187 | the previous node of n is n - 1 for n in 2..30, and there is none otherwise |
| StoryMap.MaxStars | js/scenes/StoryMapScene.js:499 | the larger of the stored and earned stars when the stored value is a number, and NaN when it is not |
| StoryMap.DefaultProgress | js/scenes/StoryMapScene.js:426-428 | fresh progress knows only level 1, unlocked with 0 stars |
| StoryMap.CompleteLevelEffect | js/scenes/StoryMapScene.js:76-97 | completing level c keeps the larger of its old and earned stars and unlocks it, unlocks c + 1 and moves the avatar there (level 30 stays put), and touches no other entry |
| StoryMap.LevelWonLosesStars | js/scenes/StoryMapScene.js:497-506 | as written, winning level 1 then level 2 leaves level 2 with NaN stars, which fail every star test |
| StoryMap.LevelWonEffect | js/scenes/StoryMapScene.js:497-506 | with the next entry created with 0 stars, winning keeps every star count numeric and never lower, keeps the won level's own unlocked flag, unlocks the next level and touches nothing else |
| StoryMap.WonProgressShape | js/scenes/StoryMapScene.js:501-505 | only levels 1..29 get a next-level entry, which is unlocked and otherwise kept |
| StoryMap.LevelWonAgreesOnExistingEntries | js/scenes/StoryMapScene.js:504 | where the next level already has an entry, the as-written and corrected wins agree |
| StoryMap.CandidateUpTo | js/scenes/StoryMapScene.js:458-467 | the candidate level is the largest unlocked node id scanned so far, and at least 1 |
| StoryMap.MaxStarredUpTo | js/scenes/StoryMapScene.js:458-467 | the starred level is the largest unlocked node id with stars scanned so far, or 0 |
| StoryMap.LoadedLevelDefault | js/scenes/StoryMapScene.js:420-479 | fresh progress places the avatar on level 1 |
| StoryMap.LoadedLevelOnlyFirst | js/scenes/StoryMapScene.js:420-479 | progress that knows only level 1, without stars, places the avatar on level 1 |
| StoryMap.LoadedLevelUnlocked | js/scenes/StoryMapScene.js:458-477 | the loaded level lies in 1..30 and is level 1 or an unlocked level |
| StoryMap.ResumeLevelNext | js/scenes/StoryMapScene.js:106-124 | resuming below level 30 moves to the (locked) level after the highest unlocked one |
| StoryMap.ScanNodes | js/scenes/StoryMapScene.js:458-467 | the node loop computes the largest unlocked and the largest starred unlocked node ids |
| StoryMap.StartLevel | js/scenes/StoryMapScene.js:456-479 | the level after the highest starred node when that level is unlocked, else the highest unlocked node, and level 1 for empty progress, as the loaded-level definition says |
| StoryMap.HighestUnlocked | js/scenes/StoryMapScene.js:101-106 | the key loop finds the highest unlocked key, or 0 when none is unlocked |
| StoryMap.StoryMapScene.constructor | js/scenes/StoryMapScene.js:2-5 | a new scene has empty progress at level 1 and has stored nothing |
| StoryMap.StoryMapScene.LoadPlayerProgress | js/scenes/StoryMapScene.js:420-479 | the progress becomes the saved one, or the fresh default, and the avatar goes to the loaded level; nothing is stored |
| StoryMap.StoryMapScene.Init | js/scenes/StoryMapScene.js:72-133 | with a completed level, the progress is the completion update of the loaded progress, and it is stored; without one, empty progress is replaced by the default and stored, and otherwise the avatar resumes after the highest unlocked level |
| StoryMap.StoryMapScene.ApplyCompletedLevel | js/scenes/StoryMapScene.js:74-97 | the progress and the avatar's level follow the completion rule, and the new progress is stored |
| StoryMap.CompletedProgress | js/scenes/StoryMapScene.js:74-97 | the stars, unlocks and destination computed step by step are exactly those of the completion rule |
| StoryMap.StoryMapScene.ResumeHighestUnlocked | js/scenes/StoryMapScene.js:98-133 | empty progress becomes the default at level 1 and is stored; otherwise progress is kept and the avatar resumes from the highest unlocked level |
| StoryMap.StoryMapScene.LevelWon | js/scenes/StoryMapScene.js:497-506 | the progress becomes the corrected win update and is stored; the avatar's level does not change |
| Album.RequiredStars | js/scenes/AlbumScene.js:313-314 | a level needs 3 stars exactly when its id is a multiple of 5, and 2 otherwise |
| Album.CgUnlockedIff | js/scenes/AlbumScene.js:312-315 | a CG is unlocked exactly when the level has an entry whose star count is a number of at least the requirement; a missing entry or star field never unlocks |
| Album.MoreStarsKeepCg | js/scenes/AlbumScene.js:312-315 | raising a level's stars never locks its CG again |
| Album.CompletionUnlocksCg | js/scenes/AlbumScene.js:312-315 | completing a level on the story map with at least the required stars unlocks its CG |
| Album.PagesPartition | js/scenes/AlbumScene.js:291-296 | each level 1..30 is on exactly one of the two pages: 1..15 on the first, 16..30 on the second |
| Album.PagesSizes | js/scenes/AlbumScene.js:291-296 | both pages show fifteen levels and any later page shows none |
| Album.SlotsDistinct | js/scenes/AlbumScene.js:281-301 | the fifteen slots of a page are at distinct positions inside the grid's bounds |
| Album.PageThumbsShowPage | js/scenes/AlbumScene.js:291-304 | every level of a page has a thumbnail on it, unlocked exactly when its CG is |
| Album.AlbumScene.constructor | js/scenes/AlbumScene.js:6-13 | a new album has empty progress, no thumbnails and is on page 0 |
| Album.AlbumScene.Init | js/scenes/AlbumScene.js:15-19 | the progress becomes the one passed in, or empty when none is |
| Album.AlbumScene.CreateThumbnailGrid | js/scenes/AlbumScene.js:271-307 | the thumbnails are rebuilt as the current page's thumbnails |
| Album.AlbumScene.PrevPage | js/scenes/AlbumScene.js:479-485 | the page goes back by one and the grid is rebuilt only when it is above 0; the page stays in range |
| Album.AlbumScene.NextPage | js/scenes/AlbumScene.js:487-493 | the page goes forward by one and the grid is rebuilt only when it is below the last; the page stays in range |
| StateManager.Transition | js/states/StateManager.js:17-52 | the result is true exactly when the state is registered; an unknown state or the current one changes nothing, and any other becomes current with the old current as previous, after the old state's exit hook, the new one's enter hook and the change event |
| StateManager.Back | js/states/StateManager.js:55-62 | with no previous state nothing changes and the result is false; otherwise it is the transition to the previous state |
| StateManager.StateManager.constructor | js/states/StateManager.js:3-8 | a new manager has no states and no current or previous state |
| StateManager.StateManager.RegisterState | js/states/StateManager.js:11-14 | the name is bound to the state, replacing any earlier one; nothing else changes |
| StateManager.StateManager.SetState | js/states/StateManager.js:17-52 | the manager's new state and the result are the transition's |
| StateManager.StateManager.GoToPreviousState | js/states/StateManager.js:55-62 | the manager's new state and the result are those of going back |
| StateManager.StateManager.GetCurrentStateName | js/states/StateManager.js:65-67 | the name is absent exactly when there is no current state, and otherwise is the current state's |
| StateManager.StateManager.Cleanup | js/states/StateManager.js:77-88 | the registry and both state references are emptied, after the current state's exit hook if it has one |
| StateManager.TransitionCoherent | js/states/StateManager.js:17-62 | transitions and going back keep the current and previous states registered |
| StateManager.RegisterCoherent | js/states/StateManager.js:11-14 | registering keeps the current and previous states registered |
| StateManager.UnknownRefused | js/states/StateManager.js:19-22 | an unregistered name is refused and nothing changes, hooks included |
| StateManager.SameStateNoHooks | js/states/StateManager.js:25-28 | re-entering the current state succeeds and runs no hook |
| StateManager.BackTwiceReturns | js/states/StateManager.js:38-62 | going back twice returns to the same current and previous states |
| StateManager.ExitBeforeEnter | js/states/StateManager.js:33-49 | a real transition runs the old state's exit hook, then the new state's enter hook, then the change event |
| AudioManager.Spaced | js/managers/AudioManager.js:433 | every underscore becomes a space and every other character is kept, at the same length |
| AudioManager.FormatCongratulation | js/managers/AudioManager.js:433-435 | the text has underscores replaced by spaces and its first character upper-cased, contains no underscore, and ends with exactly one added `!` unless the message already ended with one |
| AudioManager.FormatIdempotent | js/managers/AudioManager.js:433-435 | formatting an already formatted text leaves it unchanged |
| AudioManager.FormatExamples | test/audio/AudioManagerTest.js:224-231 | `fantastic` becomes `Fantastic!`, `great_aim` becomes `Great aim!`, and the empty message becomes `!` |
| AudioManager.FormatMatches | js/managers/AudioManager.js:433-435 | a text of the message's characters with underscores as spaces, the first upper-cased, and a final `!` is the formatted text |
| AudioManager.SpecialClearText | js/managers/AudioManager.js:473 | nothing is shown exactly when less than 20 were cleared |
| AudioManager.SpecialClearTiers | js/managers/AudioManager.js:473-477 | 20 to 29 shows `WOW!!`, 30 to 39 `AMAZING!!!`, 40 and above `SPECTACULAR!!!`, and below 20 nothing |
| AudioManager.AudioManager.constructor | js/managers/AudioManager.js:3-12 | a new manager has sound enabled, no cached sounds and no music, and is a dummy exactly when no sound system is available |
| AudioManager.AudioManager.PlaySFX | js/managers/AudioManager.js:248-297 | a sound is cached only when the manager is not a dummy, sound is enabled and its audio is loaded; nothing else changes |
| AudioManager.AudioManager.SoundComplete | js/managers/AudioManager.js:286-288 | a finished sound is removed from the cache; nothing else changes |
| AudioManager.AudioManager.StopAll | js/managers/AudioManager.js:302-362 | a dummy changes nothing; otherwise each cached sound is stopped exactly once, the cache is emptied and both music handles are cleared |
| AudioManager.AudioManager.SetEnabled | js/managers/AudioManager.js:552-560 | the enabled flag is set; disabling a real manager also empties the cache and clears the music, and enabling changes nothing else |
| AudioManager.AudioManager.Cleanup | js/managers/AudioManager.js:563-569 | the cache is empty and both music handles are cleared, whether or not the manager is a dummy |

## Left out

- Rendering, tweens, particles, camera effects, the bowstring and trajectory dots, and sound playback are not modelled. Where a rule of the game scene plays a sound or notifies the UI, the model records an event in the scene record, in order, with these exceptions, which record nothing: the `updatePercentage` and `updateScore` notifications of GameRules.CountCleared and GameRules.UpdateReveal (js/scenes/GameScene.js:971-972); the game-over sound of GameRules.LoseLevel (js/scenes/GameScene.js:1126); the victory music of GameRules.VictoryDelayEnds (js/scenes/GameScene.js:1070); the `bombCountUpdated` and `bombTypeSelected` notifications of BombManager.BombManager.DecrementBombCount and BombManager.BombManager.SelectBombType (js/managers/BombManager.js:337, 361); and the crack and explosion sounds of BlockManager's destructions.
- Timers (`time.delayedCall`, `addEvent`, `setTimeout`) are not modelled as time. Each delayed callback is a method the caller runs when the timer fires, for example `Game.GameScene.VictoryDelayFires`, `Game.ProcessBlockDestruction` and `Launcher.BombLauncher.MissedBombTimer`. Delay lengths and the order in which several pending timers fire are left to the caller.
- Wall-clock time and random draws are parameters: `now`, the shuffle's draws and the launch distance.
- Floating-point geometry and physics are not modelled: forces, trajectories, reflection, speed clamps, drill direction and the per-block delays that depend on distance. Positions are whole pixels and distances are compared squared.
- js/BombLauncher.js's checkForStoppedBombs, calculateForce and updateBombPosition compute physics only; they are not part of this model.
- BlockManager.BlockManager.GetRevealPercentage: computes floor(cleared·100 / total) exactly. JavaScript's `Math.floor(cleared / total * 100)` can be one less because of float rounding (29 of 100 gives 28).
- GameRules.RevealOf: the same exact integer arithmetic replaces the float expression of js/scenes/GameScene.js:962.
- BombManager.BombManager.SetupBombs: from level 2 on, it requires the loaded counts to have a ricochet key. Without one the source stores NaN (`Math.max(undefined, 4)`). The `catch` path (fallback counts and `false`) is not modelled, because no modelled step throws.
- js/managers/BombManager.js's createBomb, launchBomb and cleanup build Phaser physics objects and timers; they are not part of this model. The slingshot bomb's creation and launch are modelled from js/BombLauncher.js.
- BlockManager's block creation over an image is not part of this model: createIceBlocksOverImage, _createBlocksUsingUtils, createIceBlocksDirectly, _generateBlockGrid, _createBlocksFromGrid, _determineBlockType, createBlock, createVeil, and the effect helpers. They sample canvas pixels and create Phaser objects. Grid padding, the shuffle and the dynamite selection are modelled on the grid they are given.
- I/O is not modelled. This covers the level-file fetches of `LevelManager.loadLevelData` and the file read and write of clean_duplicates.py: the lines come in and go out as values, together with the output path. It also covers serve.py's socket server and browser launch, the editor's DOM access and downloads, and localStorage. Stored progress enters `StoryMap` as the `saved` parameter, and the last write is recorded in the field `stored`.
- js/BombTypes.js is not part of this model: it defines a second, timer-driven `BombManager` class under the same global name.
- js/states/GameState.js, UIScene, TitleScene, LoadingScene, the CG scenes, js/VisualEffects.js and js/BlockUtils.js are not part of this model: their states and helpers only drive the UI and effects. UIScene asks 90 for two stars. GameScene asks 92, and the model uses GameScene's rule.
- Catch paths and the fallbacks for missing managers are not modelled. The game scene is taken after `create()`, with its launcher, level manager, audio manager and game-state manager present. The launcher's `createBomb` sprite fallback after a failed physics creation is not modelled.
- The launcher's `bombState.active` is a field of the scene record (`GameRules.Control.launcherStateActive`), because the scene and the game-state manager clear it too.
- Launcher.ValidateBombType: the loaded textures are a parameter. Names that JavaScript finds on the `shortNames` object's prototype chain, such as `constructor`, are not modelled.
- The pointer's drag length is a parameter. handlePointerMove, drawTrajectoryFromPointer and the touch indicator only draw and are not modelled. The visual part of resetAimState is not modelled: moving the bomb back, its tint and tweens.
- Destroying a Phaser object is modelled as its `inScene` flag becoming false.
- The contracts that need a JavaScript object's keys listed once (`OrderedMap.Valid`) require it, because that is how every such object is built. `Object.keys` puts integer-like keys first; none of the bomb names is integer-like, so insertion order is kept.
- Game.GameScene.TriggerStickyBomb: requires the sticky and driller lists to hold each bomb once, as the scene only ever pushes newly made bombs.
- Text: `toUpperCase` and `toLowerCase` are modelled on ASCII letters only; every type and message name in the game is ASCII.
- The editor's `selectedBlockType` is set from the DOM and is a field here. A layout group or old-format block without a string `type` makes the source throw at `type.toUpperCase()`, before the guard that would have skipped the group; the model skips it. A non-numeric `blockSize` is not modelled.
- serve.py's `urlparse` forms with a scheme, a network location or `;params` are not modelled: the path is everything before the first `?` or `#`.
- `LevelManager` configurations hold numbers where the source reads numbers; a JSON string such as `"90"` for a target is not modelled. getChibiImageKey, getBackgroundKey, getVictoryBackgroundKey, the two path getters, getCurrentBlockLayout and getCurrentAvailableBombs read one string or object each and are not modelled. The write to a shallow copy of the base configuration at js/LevelManager.js:232-234 has no observable effect and is not modelled.
- StoryMap: the nodes' x, y and path type are drawing data and are not modelled. The first estimate of the current level in loadPlayerProgress is overwritten before use and is not modelled. Saving as JSON turns a NaN star count into null; the model keeps NaN.
- StateManager: a state is identified by the name it was registered under. One state object registered under two names is not modelled, nor is `update`, which only forwards to the current state.
- clean_duplicates.py's two status `print` messages (the replaced line range, or that no duplicate was found) are not modelled; only the lines written and the output path are.
- LevelManager.LevelValue's `Num(int)` holds whole numbers only: a configuration with a fractional JSON number, such as a target of 92.5, is not modelled.
- AudioManager is modelled after `initialize()`. Music start and stop, volumes and the click prompt are not modelled.

## Findings

| source | as written | input that shows it | evidently intended | confidence | as-written member | corrected member |
|---|---|---|---|---|---|---|
| js/BombLauncher.js:583, 600-603, 613-618 | launchBomb sets `isLaunching` and then returns `false` on an invalid pointer or a drag shorter than 20 without clearing it; only a completed launch or an error clears it (lines 1016, 1022) | a ready call with a drag shorter than 20, then any number of perfect launch attempts: all are refused | every exit of launchBomb clears `isLaunching`, so a short drag only resets the bomb | not executed | Launcher.LaunchLockAsWritten, Launcher.ShortDragLocksLauncher, Launcher.LockedForever | Launcher.LaunchLock, Launcher.NeverLocked, Launcher.LaunchAfterAnything, Launcher.BombLauncher.LaunchBomb |
| js/scenes/StoryMapScene.js:504 | levelWon creates a missing next-level entry as `{}`, with no `stars` field, so a later levelWon on that level computes `Math.max(undefined, stars)`, which is NaN | levelWon(1, 2) on fresh progress, then levelWon(2, 3): level 2's stars are NaN and fail every star test | the new entry is `{stars: 0, unlocked: false}`, as `init` creates it at line 88 | not executed | StoryMap.WonProgressAsWritten, StoryMap.LevelWonLosesStars | StoryMap.WonProgress, StoryMap.LevelWonEffect, StoryMap.StoryMapScene.LevelWon |
