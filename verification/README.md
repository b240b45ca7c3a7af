# Synthya's story engine, modelled in Dafny

This project models the story side of a small browser game, *Synthya*. A dialogue
interpreter walks a constant scene graph: it shows dialogue lines, offers choices,
launches minigames and checks a free-text answer. The game itself is a host that
switches views, gates world clicks and clamps the player to a bar. The model covers:

- `Dialogue` (`dialogue.dfy`): the interpreter of `js/Dialogue.js`. Each handler is a
  pure function from a state and an event to a new state plus a trace of effects. The
  effects are the scene loads, the `endDialogue` calls, the flags set, the minigame
  launches, the nodes rendered, the input form attached or rejected, and any TypeError.
- `StoryData` (`storydata.dfy`): chapter 1 of `js/storyData.js` as a constant `Graph`,
  with its character and effect tables. `SceneGraph` (`scenegraph.dfy`) holds the
  types and the well-formedness predicates.
- `Minigames` (`minigames.dfy`): the harness `Minigames.run`. Its four puzzles:
  - `Simon` (`simon.dfy`), the pad sequence;
  - `Pipes` (`pipes.dfy`), the pipe rotation, with the breadth-first `solved()` search
    as a verified method;
  - `AudioStitch` (`stitch.dfy`), the wave-segment swap;
  - `Stealth` (`stealth.dfy`), the timing puzzle.
- `MemoryPuzzle`, `HackingPuzzle` and `GameSystem` (`minigamesystem.dfy`): the
  canvas `MiniGameSystem` of `js/miniGames.js`.
- `Host` (`game.dfy`): the parts of `js/Game.js` the interpreter relies on, namely
  `changeState`, the world-click gate, `pointInKael` and the x-clamp.
- `StoryRun` (`storyrun.dfy`): facts about the shipped story when the interpreter,
  the harness and the host run it.
- `Text` (`text.dfy`): the answer normalisation, `trim` followed by a `toLowerCase`
  that folds only the ASCII letters (see Left out). `Common` (`common.dfy`):
  `Option`, counting, and the `Math.floor(Math.random() * n)` idiom.

Randomness enters as sequences of reals in [0, 1), one per `Math.random()` call. The
clock enters as a natural-number millisecond parameter. Timers are explicit events: a
`ScheduleDone` cue is a `setTimeout(done, …)` the caller may fire later.

The completion callback has no guard against a second call, so each call loads the
follow-up scene again (see Findings).

Every interpreter handler takes a `Build`. `AsWritten` runs `renderInputScene` as the
code stands: its first write, to the never-assigned `portraitEl`, throws. `Repaired`
runs it with that write fixed, so the answer form is attached (see Findings). Every
other handler behaves the same in both builds.

## Model

| member | source | states |
|---|---|---|
| Common.RandomIndex | js/Minigames.js:50 | `Math.floor(Math.random() * n)` is always a valid index below `n` |
| Common.Swap | js/Minigames.js:269 | the destructuring swap exchanges exactly two positions and keeps the multiset |
| Common.ShuffleDown | js/miniGames.js:87-90 | the Fisher–Yates loop returns a permutation of its input (same length, same multiset) |
| SceneGraph.Lookup | js/Dialogue.js:387 | property lookup finds a value iff the key is present, and the value is stored under that key |
| Text.TrimStartDropsSpace | js/Dialogue.js:452 | everything `trim` drops from the front is white space |
| Text.TrimEndDropsSpace | js/Dialogue.js:452 | everything `trim` drops from the back is white space |
| Text.TrimKeepsMiddle | js/Dialogue.js:452 | `trim` returns a contiguous middle slice, with only white space on either side |
| Text.TrimHasNoOuterSpace | js/Dialogue.js:452 | the result of `trim` neither starts nor ends with white space |
| Text.TrimIgnoresPadding | js/Dialogue.js:452 | white space added on either side does not change the trim |
| Text.TrimIdempotent | js/Dialogue.js:452 | trimming twice equals trimming once |
| Text.Trim | js/Dialogue.js:452 | `String.prototype.trim`; its contract is carried by `Text.TrimKeepsMiddle`, `Text.TrimHasNoOuterSpace` and `Text.TrimIdempotent` |
| Text.Lower | js/Dialogue.js:452 | `toLowerCase` on ASCII letters; its contract is carried by `Text.LowerPointwise` and `Text.LowerIdempotent` |
| Text.Normalize | js/Dialogue.js:452 | the puzzle's `normalize`; its contract is carried by `Text.NormalizeIsTrimOfLower`, `Text.NormalizeIdempotent` and `Text.NormalizeIgnoresPaddingAndCase` |
| Text.LowerPointwise | js/Dialogue.js:452 | the modelled lower-casing keeps the length, maps each character on its own, and never makes or unmakes white space (ASCII only, see Left out) |
| Text.LowerIdempotent | js/Dialogue.js:452 | lower-casing twice equals lower-casing once |
| Text.NormalizeIsTrimOfLower | js/Dialogue.js:452 | `trim().toLowerCase()` equals `toLowerCase().trim()` |
| Text.NormalizeIdempotent | js/Dialogue.js:452 | normalising a normalised answer changes nothing |
| Text.NormalizeIgnoresPaddingAndCase | js/Dialogue.js:452-455 | an answer with surrounding white space and any letter case normalises like the stored answer |
| Dialogue.LoadScene | js/Dialogue.js:55-119 | a missing scene calls `endDialogue` and changes nothing; a found scene resets to its first node with the flags updated, and the interpreter invariant holds; the load of the target is reported first and no other scene is loaded |
| Dialogue.UnknownSceneEndsOnce | js/Dialogue.js:56-60 | loading an unknown id ends the dialogue exactly once and leaves the state unchanged |
| Dialogue.FlagTable | js/Dialogue.js:66-71 | entering `jukebox_solved` or `sign_solved` sets its flag and nothing else; re-entering is idempotent; a host without `flags` gets no write |
| Dialogue.FlagFor | js/Dialogue.js:66-71 | exactly `jukebox_solved` and `sign_solved` carry a flag |
| Dialogue.EnterFlags | js/Dialogue.js:66-71 | a host without `flags` gets no write; otherwise flags are only added, at most one per entry, and only for a flagged scene |
| Dialogue.MinigameDispatchedFirst | js/Dialogue.js:99-108 | a scene with a minigame launches it and renders nothing else, and does not end the dialogue |
| Dialogue.InputDispatchedSecond | js/Dialogue.js:110-113 | in the repaired build, a scene with an input prompt (and no minigame) attaches the answer form and renders no node |
| Dialogue.DialogueDispatchedLast | js/Dialogue.js:114 | an ordinary scene with dialogue renders its first node and launches nothing |
| Dialogue.EmptyDialogueEndsTwice | js/Dialogue.js:114-118 | a scene with no dialogue and no choices calls `endDialogue` twice, and once when it has choices |
| Dialogue.RenderNode | js/Dialogue.js:121-236 | a System node opens an overlay; a character node is shown, and only the last node attaches the choices (tagged as built by `renderNode`) |
| Dialogue.RenderChoicesOrEnd | js/Dialogue.js:283-302 | with choices the panel holds exactly those buttons; otherwise the panel is cleared and the dialogue ends |
| Dialogue.Attach | js/Dialogue.js:210-234 | one button per choice, in order, remembering which renderer built it |
| Dialogue.RenderKeepsInv | js/Dialogue.js:121-302 | rendering a node or the choices preserves the interpreter invariant |
| Dialogue.AdvanceKeepsInv | js/Dialogue.js:314-333 | dismissing an overlay or stepping to the next node preserves the invariant |
| Dialogue.ClickKeepsInv | js/Dialogue.js:304-335 | every click preserves the invariant |
| Dialogue.KeyKeepsInv | js/Dialogue.js:337-378 | every key press preserves the invariant |
| Dialogue.HandleKeepsInv | js/Dialogue.js:37-465 | every event the interpreter handles preserves the invariant |
| Dialogue.RunKeepsInv | js/Dialogue.js:37-465 | any sequence of events preserves the invariant |
| Dialogue.AdvanceOnLastNode | js/Dialogue.js:329-333 | on the last node a click ends the dialogue iff the scene has no choices, and Space/Enter does the same as a click |
| Dialogue.AdvanceBeforeLastNode | js/Dialogue.js:329-331 | before the last node a click renders exactly the next node, and Space/Enter does the same |
| Dialogue.DismissOnLastNode | js/Dialogue.js:314-323 | dismissing a System overlay on the last node shows the choices iff there are any, and otherwise ends the dialogue |
| Dialogue.DismissOverlay | js/Dialogue.js:314-323 | removing the overlay stays in the scene, moves to the next node when there is one, clears the overlay on the last node, and loads nothing |
| Dialogue.OnClick | js/Dialogue.js:304-335 | a click on a choice button is left to the button; any other click stays in the scene, never loads a scene or faults, and ends the dialogue only when the scene has no choices |
| Dialogue.OnKeyPress | js/Dialogue.js:337-378 | keys outside the dialogue view, typed into a field, or other than Space/Enter change nothing; a key press stays in the scene, never loads a scene, and faults only when no scene is loaded |
| Dialogue.KeyDown | js/Dialogue.js:39-42 | before `startStory` registers the listener, key presses reach nothing; a key press never loads a scene |
| Dialogue.ChooseChoice | js/Dialogue.js:214-223 | a last-node button loads its target when truthy and otherwise ends the dialogue (a `renderChoicesOrEnd` button, lines 291-296, always loads); a target that names no scene ends the dialogue once and changes nothing; a click on no button changes nothing |
| Dialogue.ClicksWalkNodes | js/Dialogue.js:329-331 | `n` clicks advance exactly `n` nodes and render exactly those nodes, in order |
| Dialogue.SequentialRender | js/Dialogue.js:329-333 | in a choiceless scene, clicking through renders nodes 1 to n-1 in order and the click after the last ends the dialogue once |
| Dialogue.ThreeNodeSceneOffersChoice | js/Dialogue.js:208-223 | after two clicks in a three-node scene the single choice is on screen and choosing it loads its target |
| Dialogue.RenderInputScene | js/Dialogue.js:424-465 | corrected: the form is attached with the scene's answer and follow-up, and its prompt is shown |
| Dialogue.RenderInputSceneAsWritten | js/Dialogue.js:429 | as written: a TypeError escapes, no input form is attached, and the panel keeps what was on screen |
| Dialogue.InputFaultsAsWritten | js/Dialogue.js:424-430 | as written, entering an input scene moves the cursor there, faults, and shows nothing: the panel is what the previous scene left |
| Dialogue.InputSceneTrapsChoiceAsWritten | js/Dialogue.js:424-430 | as written, a choice leading to an input scene stays on screen, and choosing it again repeats the same state and calls |
| Dialogue.AsWrittenNeverLoads | js/Dialogue.js:453-457 | as written, a scene that only an input puzzle leads to is never loaded by any run of events that does not start there |
| Dialogue.Submit | js/Dialogue.js:453-464 | a normalised match loads `nextOnCorrect`; a mismatch only shows the error; without a form nothing happens |
| Dialogue.InputPuzzleDecision | js/Dialogue.js:452-463 | the answer is accepted iff the lower-cased trims are equal; otherwise the state is unchanged and the error shows |
| Dialogue.MinigameDone | js/Dialogue.js:100-106 | the completion callback loads `onComplete` when it is truthy, and otherwise ends the dialogue |
| Dialogue.CompletionLoadsFirst | js/Dialogue.js:100-102 | a completion with a follow-up starts by loading that scene |
| Dialogue.CompletionIsNotGuarded | js/Dialogue.js:100-106 | two completions of one minigame load the follow-up scene twice |
| Dialogue.Handle | js/Dialogue.js:37-52 | only choices, submissions, minigame completions and `startStory` load a scene; keys do nothing until `startStory` registers the listener; `startStory` ends by switching to the dialogue view unless the load faulted, and then it never switches; `cleanup` unregisters the listener |
| Dialogue.Run | js/Dialogue.js:37-52 | a run of clicks, key presses and cleanups alone never loads a scene |
| Dialogue.StartStory | js/Dialogue.js:37-45 | `startStory` activates the key listener and loads the scene; it switches to the dialogue view exactly when no TypeError escaped the load |
| Dialogue.Cleanup | js/Dialogue.js:47-53 | `cleanup` deactivates the key listener and changes nothing else |
| Dialogue.FindByName | js/Dialogue.js:383 | `find` gives the first character, in table order, whose lower-cased name is the key, and nothing exactly when no name matches |
| Dialogue.FindCharacter | js/Dialogue.js:383 | the first character whose lower-cased name is the key wins; when no name matches, the character stored under the property `key` is used; the result is always an entry of the table |
| Dialogue.PickImage | js/Dialogue.js:387-388 | the emotion's own image wins when non-empty; otherwise `speak`, then `normal`, then the first entry, each only when non-empty; any image returned belongs to the character |
| Dialogue.PortraitChoice | js/Dialogue.js:380-389 | a speaker no character answers to has no portrait; a found speaker's portrait follows that fallback order over the speaker's own image table |
| Dialogue.GetPortrait | js/Dialogue.js:380-389 | no speaker, or a speaker no character answers to, gives no portrait; a portrait is always a non-empty image from the found speaker's own table |
| Dialogue.ApplyEffects | js/Dialogue.js:391-400 | `effect-glitch` is on iff a tag is `glitch`, `effect-flash` iff one is `flicker`, `effect-scan` iff one is `scan`, and no other class is added |
| Dialogue.EffectClass | js/Dialogue.js:395-399 | exactly the tags glitch, flicker and scan map to a class |
| StoryData.SceneKeys | js/storyData.js:8-792 | the scene map `StoryData.Scenes` has exactly the 29 chapter-1 ids |
| StoryData.AllScenesShaped | js/storyData.js:8-792 | every scene's choices and follow-ups name scene ids, its tags are glitch/flicker/scan, minigame scenes are bare, and every node has a known pose |
| StoryData.ChoiceTargetsResolve | js/storyData.js:8-792 | every choice's `nextScene` names an existing scene |
| StoryData.FollowUpTargetsResolve | js/storyData.js:351-716 | every minigame `onComplete` (lines 351, 439, 705 and 716) and the input puzzle's `nextOnCorrect` (line 618) name existing scenes |
| StoryData.MinigameScenesShape | js/storyData.js:348-718 | minigame scenes carry no dialogue, choices or prompt |
| StoryData.MinigameScenesListed | js/storyData.js:698-718 | exactly `jukebox_minigame`, `sign_minigame`, `data_hack` and `stealth_escape` launch minigames |
| StoryData.InputScenes | js/storyData.js:612-619 | `kael_override` is the only input puzzle |
| StoryData.ScenesWithoutChoices | js/storyData.js:8-792 | the choiceless scenes are the two hubs, the input puzzle and the four minigames |
| StoryData.EffectTagsDeclared | js/storyData.js:826-842 | the effect table declares glitch, flicker and scan, and every node's tags are among them |
| StoryData.BreakOnlyAfterOverride | js/storyData.js:612-622 | no choice and no minigame completion leads to `memory_break`; the override puzzle's `nextOnCorrect` does |
| StoryData.StoryWellFormed | js/storyData.js:8-792 | choices and follow-ups resolve and minigame scenes are bare |
| StoryRun.StoryPoses | js/storyData.js:8-792 | every node is System, a Synthya speak/happy/sad/surprise pose, or a Kael speak/happy pose |
| StoryRun.SpeakerKeys | js/Dialogue.js:382 | the speaker names "Synthya" and "Kael" normalise to `synthya` and `kael` |
| StoryRun.CharactersFound | js/Dialogue.js:383 | `getPortrait` finds Synthya's and Kael's entries by their lower-cased names |
| StoryRun.SynthyaPortrait | js/storyData.js:796-804 | each of Synthya's four poses has its own image |
| StoryRun.KaelPortrait | js/storyData.js:805-816 | Kael's speak and happy poses have their own images |
| StoryRun.PortraitsResolve | js/Dialogue.js:380-389 | every character node in the story gets a non-empty portrait, namely the image of its own emotion |
| StoryRun.MinigameKinds | js/Minigames.js:17-24 | the four minigame scenes reach the audio-stitch, pipe, Simon and stealth builders |
| StoryRun.NoGenericMinigame | js/Minigames.js:25-35 | no minigame scene of the story falls back to the generic Complete panel |
| StoryRun.KaelSceneMissing | js/Game.js:159-161 | the scene the Kael click starts, `broken_mug_loop_start`, is not in the story |
| StoryRun.KaelClickEndsAtOnce | js/Game.js:152-162 | clicking Kael in the world ends the dialogue once, through the not-found path, and the game stays in the world view |
| StoryRun.EntrySceneExists | js/CharacterSelect.js:107-111 | the scene the Play button starts, `archive_intro`, exists |
| StoryRun.OverrideTrapsAsWritten | js/Dialogue.js:424-430 | as written, the Continue of `kael_confrontation` or `kael_question` enters `kael_override`, faults, and leaves the Continue button on screen; pressing it again repeats exactly that |
| StoryRun.StartOnOverride | js/Dialogue.js:37-45 | starting the story on `kael_override` as written registers the listener, faults inside the load and never switches the view; the repaired build ends with the switch |
| StoryRun.BreakUnreachableAsWritten | js/storyData.js:612-622 | as written, no run of player events and story minigame completions loads `memory_break`, so the chapter cannot be finished past the override |
| StoryRun.OverrideFormAttached | js/storyData.js:612-619 | repaired, entering `kael_override` attaches the form for "Project Sundown" leading to `memory_break` |
| StoryRun.OverrideKey | js/Dialogue.js:452 | the stored answer normalises to `project sundown` |
| StoryRun.OverrideAnswerAccepted | js/Dialogue.js:455-457 | any text normalising to `project sundown` loads `memory_break` |
| StoryRun.EscapeCompletedTwiceLoadsEndTwice | js/Dialogue.js:100-102 | in either build, two completions of the stealth escape load `chapter_end` at least twice |
| Minigames.KindOf | js/Minigames.js:17-36 | each of the four exact `type` strings selects its own builder; anything else gets the Complete panel |
| Minigames.Run | js/Minigames.js:5-37 | without a descriptor the callback runs at once (when given) and no overlay opens; otherwise one puzzle opens |
| Minigames.DoneAsWritten | js/Minigames.js:18-24 | as written, every `done` call removes the overlay and calls the callback again |
| Minigames.Done | js/Minigames.js:18-24 | corrected, only the first `done` closes the puzzle and notifies |
| Minigames.AsWrittenNotifiesEachTime | js/Minigames.js:18-24 | as written, `n` firings notify the caller `n` times |
| Minigames.DoneNotifiesOnce | js/Minigames.js:18-24 | corrected, the caller is notified exactly once however often `done` fires |
| Simon.SequenceLength | js/Minigames.js:42-43 | easy gives 3 pads, hard gives 6, anything else 4 |
| Simon.SequenceLengthTable | js/Minigames.js:42-43 | the difficulty ignores letter case, and missing or empty reads as medium |
| Simon.Build | js/Minigames.js:50-52 | one pad per draw, starting in playback at position 0 |
| Simon.StartPlayback | js/Minigames.js:77-79 | playback blocks presses and keeps the sequence |
| Simon.EndPlayback | js/Minigames.js:86 | after playback the player's turn starts from the first pad |
| Simon.PlayButton | js/Minigames.js:93 | the Play button replays only when no playback is running |
| Simon.Press | js/Minigames.js:98-113 | presses are ignored during playback; a wrong pad schedules a replay; the right pad advances, and the last one schedules completion |
| Simon.PressAll | js/Minigames.js:98-113 | presses never move the position back and advance it by at most one each; completion is scheduled only once the whole sequence has been entered |
| Simon.RepeatFinishesIffExact | js/Minigames.js:98-113 | the remaining presses finish the puzzle iff they repeat the rest of the sequence, and schedule a replay iff they do not |
| Simon.MissedPressNeverFinishes | js/Minigames.js:108-113 | fewer presses than pads left never schedule completion |
| Simon.RepeatAfterPlayback | js/Minigames.js:86-113 | after playback, pressing the whole sequence finishes without a replay |
| Simon.PressesIgnoredDuringPlayback | js/Minigames.js:99 | during playback every press is ignored |
| Pipes.OppositeUndoes | js/Minigames.js:162 | `opposite` is an involution without fixed points, and stepping back undoes a step |
| Pipes.Variants | js/Minigames.js:124-129 | every tile kind has at least one orientation; the turn order is stated by `Pipes.RotateTurnsClockwise` |
| Pipes.Connectors | js/Minigames.js:156-160 | a tile's connectors are its kind's variant at `rot % length` |
| Pipes.RotateTile | js/Minigames.js:212 | rotation keeps the kind and wraps the counter below the number of variants |
| Pipes.RotateTurnsClockwise | js/Minigames.js:124-129 | one rotation turns a tile's connectors a quarter turn clockwise |
| Pipes.ConnectorGrid | js/Minigames.js:195-200 | the grid the search reads holds every tile's connectors |
| Pipes.LinkedSymmetric | js/Minigames.js:196-201 | a link that connects back is a link both ways |
| Pipes.Visit | js/Minigames.js:197-204 | one direction's step adds a linked, unseen neighbour to the seen set and the queue, and nothing else |
| Pipes.Expand | js/Minigames.js:195-205 | after a cell's directions are scanned, every linked neighbour has been seen and newly seen cells are queued |
| Pipes.Round | js/Minigames.js:192-205 | one iteration of the loop keeps the search invariant and makes progress |
| Pipes.Solved | js/Minigames.js:186-208 | `solved()` returns true iff the sink is reachable from the source through mutually connected tiles |
| Pipes.Randomize | js/Minigames.js:138 | the shuffle keeps each tile's kind and sets its rotation from its draw, reduced modulo the variants |
| Pipes.Rotate | js/Minigames.js:210-212 | rotating a cell changes only that cell |
| Pipes.RotateKeepsReduced | js/Minigames.js:212 | rotations stay within each kind's variants |
| Pipes.OnRotate | js/Minigames.js:210-219 | a click rotates one tile and schedules completion iff the board is then connected |
| Pipes.MiddleRowConnects | js/Minigames.js:186-208 | an open middle row connects source to sink |
| Pipes.DefaultBoardConnected | js/Minigames.js:132-136 | the predefined layout (`Pipes.DefaultBoard`) is connected |
| Pipes.TurnsReachEveryOrientation | js/Minigames.js:212 | repeated clicks reach every orientation of a tile |
| Pipes.RandomizedBoardSolvable | js/Minigames.js:138 | every randomised opening can be solved by turning the middle row |
| Pipes.BrokenBoardNotConnected | js/Minigames.js:186-208 | a concrete board is not connected, because the left column is closed |
| Pipes.RotateAfterSolvedSchedulesAgain | js/Minigames.js:210-219 | once solved, a further click that keeps the board connected schedules completion again |
| AudioStitch.Identity | js/Minigames.js:242 | the opening order before the shuffle is `0 .. n-1` |
| AudioStitch.RestoredIsIdentity | js/Minigames.js:271 | the completion test holds iff the order is the identity |
| AudioStitch.Shuffle | js/Minigames.js:244 | the shuffled opening is a rearrangement of the five segments |
| AudioStitch.Build | js/Minigames.js:241-245 | the puzzle opens with the five segments in a shuffled arrangement, each once, and nothing selected |
| AudioStitch.Click | js/Minigames.js:264-271 | the first click selects, a repeated click deselects, a second click swaps the two, and completion is scheduled iff the swap restores the order |
| AudioStitch.OnlySwapsFinish | js/Minigames.js:265-266 | selecting or deselecting never finishes and never moves a segment |
| AudioStitch.TwoClicksSwap | js/Minigames.js:265-269 | two clicks on different segments swap exactly those two |
| AudioStitch.ClicksKeepArrangement | js/Minigames.js:269 | whatever is clicked, the segments stay a rearrangement of the original |
| AudioStitch.SortClicksRestore | js/Minigames.js:264-271 | selection-sort clicks restore the order and report completion |
| AudioStitch.OrderedSolvable | js/Minigames.js:264-271 | an opening that the shuffle left in order is finished by swapping two segments and swapping them back; the second swap reports completion |
| AudioStitch.AlwaysSolvable | js/Minigames.js:244-271 | every shuffled opening, in order or not, has a click sequence that restores the order and reports completion |
| Stealth.SafeIsPeriodic | js/Minigames.js:300-303 | the safe window repeats every 2000 ms |
| Stealth.SafeAt | js/Minigames.js:300-303 | safe strictly between 600 and 1400 ms into each period; its contract is carried by `Stealth.SafeIsPeriodic` and `Stealth.Frame` |
| Stealth.Build | js/Minigames.js:282-307 | the puzzle starts at zero steps with the loop running and `safe` set from the first frame |
| Stealth.Frame | js/Minigames.js:299-306 | while the loop runs each frame sets `safe` from the clock; after it is cancelled nothing changes |
| Stealth.Move | js/Minigames.js:308-318 | a safe move is counted and the third cancels the loop and schedules completion; otherwise detection |
| Stealth.Step | js/Minigames.js:299-318 | a frame never changes the count and reports nothing; a move adds at most one step; a cancelled loop is never restarted; completion is scheduled only with the loop cancelled and three steps made |
| Stealth.Run | js/Minigames.js:299-318 | over any run the count never decreases, a cancelled loop stays cancelled, and once completion is scheduled the loop is off with at least three steps |
| Stealth.StepsCountSafeMoves | js/Minigames.js:309-310 | the step count grows by exactly the number of moves counted while safe, so it never decreases and grows by at most one per event |
| Stealth.SafeFrozenAfterFinish | js/Minigames.js:313 | after completion frames no longer change anything, so `safe` stays true |
| Stealth.MoveAfterFinishSchedulesAgain | js/Minigames.js:308-318 | as written, each move after the finishing one schedules completion again |
| Stealth.FourthMoveSchedulesDoneTwice | js/Minigames.js:308-318 | four safe clicks schedule completion twice |
| MemoryPuzzle.Pairs | js/miniGames.js:81-84 | the unshuffled deck holds every symbol twice, face down and unmatched |
| MemoryPuzzle.PairsCount | js/miniGames.js:81-84 | each symbol's card occurs twice per occurrence of the symbol |
| MemoryPuzzle.Deck | js/miniGames.js:76-93 | the shuffled deck has 16 cards and is a permutation of the pairs |
| MemoryPuzzle.DeckHasEachSymbolTwice | js/miniGames.js:78-92 | each of the eight symbols appears on exactly two cards |
| MemoryPuzzle.DeckIsFresh | js/miniGames.js:82-83 | every dealt card is face down and unmatched |
| MemoryPuzzle.Build | js/miniGames.js:60-74 | a new game is valid with no pairs matched, nothing pending and not complete |
| MemoryPuzzle.Update | js/miniGames.js:95-100 | `update` sets completion once all eight pairs are matched and changes nothing else |
| MemoryPuzzle.FlipCard | js/miniGames.js:137-148 | matched or face-up cards, or two pending cards, block the flip; otherwise the card turns up and the check is scheduled on the second |
| MemoryPuzzle.CheckMatch | js/miniGames.js:150-167 | equal symbols mark both cards matched and count a pair; otherwise both turn back down |
| MemoryPuzzle.MatchCountsTwo | js/miniGames.js:156-159 | a match marks exactly two more cards as matched |
| MemoryPuzzle.Navigate | js/miniGames.js:116-129 | the arrows move within the 4×4 grid, clamped at its edges; other keys do not move |
| MemoryPuzzle.HandleInput | js/miniGames.js:102-135 | a finished game ignores input; Enter or Space flips the selected card; arrows navigate |
| MemoryPuzzle.CompleteIffAllMatched | js/miniGames.js:97 | eight matched pairs means every card is matched, and the count never exceeds eight |
| MemoryPuzzle.FlipPairMatches | js/miniGames.js:137-167 | flipping two cards with the same symbol schedules the check, which matches both |
| MemoryPuzzle.FlipAt | js/miniGames.js:130-148 | flipping the card under the cursor keeps the game valid and changes neither the pair count nor completion |
| MemoryPuzzle.FlipPair | js/miniGames.js:137-167 | flipping two unmatched cards of one symbol and resolving the check marks exactly those two matched and face up, counts one more pair and leaves nothing pending |
| MemoryPuzzle.PairTimers | js/miniGames.js:144-146 | the first flip of a pair sets no timer, the second sets the one 800 ms check, and firing it resolves the pair |
| MemoryPuzzle.MovesUp | js/miniGames.js:116-118 | `n` Up presses move the cursor up `n` rows, or to card 0 once that would pass the top (`Math.max(0, …)` does not keep the column) |
| MemoryPuzzle.MovesDown | js/miniGames.js:119-121 | `n` Down presses that stay on the grid move the cursor down `n` rows |
| MemoryPuzzle.MovesRight | js/miniGames.js:125-129 | `n` Right presses that stay in the row move the cursor right `n` columns |
| MemoryPuzzle.ReachCard | js/miniGames.js:116-129 | from any card, four Up presses, `b / 4` Down presses and `b % 4` Right presses select card `b` |
| MemoryPuzzle.DeckPaired | js/miniGames.js:78-92 | in every deal each symbol is on exactly two cards, and the two cards of a symbol are matched together or not at all |
| MemoryPuzzle.UnmatchedPair | js/miniGames.js:97 | an unfinished game whose cards are paired has two unmatched cards of one symbol |
| MemoryPuzzle.MatchKeepsPairs | js/miniGames.js:156-159 | matching the two cards of one symbol keeps the table paired and matched in pairs |
| HackingPuzzle.Generate | js/miniGames.js:281-288 | six arrows, each picked by its draw |
| HackingPuzzle.Build | js/miniGames.js:268-279 | a new game shows the sequence with the timer at zero and no input |
| HackingPuzzle.Update | js/miniGames.js:290-302 | the timer advances by 16 ms while showing and hides at 3000; completion is set once the input is as long as the sequence |
| HackingPuzzle.CheckSequence | js/miniGames.js:304-311 | every position of the sequence is matched by the input; its contract is carried by `HackingPuzzle.CompleteIffFullInput` |
| HackingPuzzle.ArrowKey | js/miniGames.js:317-322 | each arrow key maps to its own arrow and nothing else maps |
| HackingPuzzle.Type | js/miniGames.js:325-333 | a correct arrow is appended; a wrong one clears the input |
| HackingPuzzle.HandleInput | js/miniGames.js:313-334 | input is ignored while showing, once complete, or for non-arrow keys |
| HackingPuzzle.CompleteIffFullInput | js/miniGames.js:297-300 | the next update completes the game iff the input is full, and then the input is the sequence |
| HackingPuzzle.ShowTimerHides | js/miniGames.js:291-296 | `n` frames keep the sequence visible iff `16n` more milliseconds stay under 3000 |
| HackingPuzzle.HiddenStaysHidden | js/miniGames.js:291 | once hidden, the sequence stays hidden |
| HackingPuzzle.TypingTheRestCompletes | js/miniGames.js:313-334 | typing the rest of the sequence makes the input equal to the sequence |
| GameSystem.StartGame | js/miniGames.js:11-27 | the two known types start a fresh game; an unknown type deactivates and keeps the old game |
| GameSystem.Update | js/miniGames.js:29-36 | an active memory or hacking game is advanced by its own `update`, and its completion is latched; an inactive system is unchanged |
| GameSystem.HandleInput | js/miniGames.js:44-48 | input reaches only an active game: a memory game handles the key and the 800 ms check it schedules is passed on, a hacking game handles the key; an inactive system ignores it; completion never changes |
| GameSystem.CheckMatch | js/miniGames.js:144-146 | the fired 800 ms timer resolves the two pending cards of the memory game, whether or not the system is still active; with no pair pending it changes nothing |
| GameSystem.Step | js/miniGames.js:29-48 | a frame, key or fired timer keeps the system valid and its active flag, never clears completion, and only a key sets a timer |
| GameSystem.RunKeeps | js/miniGames.js:11-55 | any run of frames, keys and fired timers keeps the system valid and active, and never forgets a completion |
| GameSystem.ArrowsOnlyMove | js/miniGames.js:116-129 | arrow presses in an unfinished memory game only move its cursor |
| GameSystem.GoToCard | js/miniGames.js:116-129 | the cursor presses of `GoTo(b)` select card `b` from anywhere and set no timer |
| GameSystem.FlipAtFlips | js/miniGames.js:116-148 | going to a card and pressing Enter runs `flipCard` on it |
| GameSystem.OneCheckPerPair | js/miniGames.js:144-146 | finding one pair fires exactly one timer |
| GameSystem.TwoFlips | js/miniGames.js:137-148 | flipping the two cards of a pair sets one timer and leaves both waiting |
| GameSystem.CheckFires | js/miniGames.js:150-167 | a fired timer runs `checkMatch` on the game with two cards waiting |
| GameSystem.PairFound | js/miniGames.js:102-167 | going to two unmatched cards of one symbol, pressing Enter on each and firing the timer matches that pair, and sets exactly one timer |
| GameSystem.FindAllPairs | js/miniGames.js:95-167 | from any unfinished paired game with nothing waiting, some run of keys and fired timers reaches eight pairs, firing only timers that were set |
| GameSystem.MemoryCanComplete | js/miniGames.js:11-36 | for every deal, a memory game started through the system can be completed with its own keys, timers and frames, and the system then reports completion; every fired timer was set |
| GameSystem.EndGame | js/miniGames.js:50-55 | ending deactivates and drops the game, and reports the game's completion |
| GameSystem.UnknownTypeKeepsOldGame | js/miniGames.js:23-25 | after an unknown type, `endGame` reports the previous game's completion |
| GameSystem.FreshGameEndsIncomplete | js/miniGames.js:11-27 | a game ended right after it starts reports failure |
| Host.ChangeState | js/Game.js:84-91 | every view is hidden; a known view is shown and becomes the state; an unknown one leaves the state |
| Host.ChangeStateProperties | js/Game.js:84-91 | the switch keeps the host consistent, is idempotent, and the last known view wins |
| Host.KaelEdgesInclusive | js/Game.js:235-238 | all four corners of Kael's rectangle hit him, and points just outside miss |
| Host.PointInKael | js/Game.js:235-238 | containment with the edges included; its contract is carried by `Host.KaelEdgesInclusive` |
| Host.ClampX | js/Game.js:176-179 | the result lies within the bounds when they are ordered, and an in-bounds value is kept |
| Host.ClampIdempotent | js/Game.js:176-179 | clamping twice equals clamping once |
| Host.ClampToBar | js/Game.js:176-179 | only `x` changes; Synthya stays ten pixels inside the bar's right end, and inside its left end when the bar is wide enough |
| Host.Apply | js/Game.js:84-91 | entering the dialogue view switches to it; a call of the missing `endDialogue`, or any other escaping TypeError, stops the handler, and nothing after it runs |
| Host.HandleWorldClick | js/Game.js:152-162 | outside the world view clicks are ignored; otherwise Synthya targets the click, and a click on Kael starts his scene |
| Host.KaelClickWithoutScene | js/Game.js:152-162 | when Kael's scene is missing the click ends the dialogue and the host never reaches the dialogue view |
| Host.ClicksIgnoredOutsideWorld | js/Game.js:153 | outside the world view a click changes nothing |

## Left out

- Rendering, CSS and DOM details are not modelled: the portrait layout, text, backgrounds, hover hints, scene characters and speaker highlighting (`js/Dialogue.js:134-201`, 238-254, 413-421, 489-530). The model keeps only what the interpreter branches on.
- Audio (`playMusic`, `stopMusic`, `playSfx`, every `sfx(...)` call) is left out: it has no effect on control flow.
- `Dialogue.ApplyEffects` models the classes added, not the timers that remove them later, which are purely visual.
- Canvas rendering (`render`, `roundRect` in `js/miniGames.js`) and the host's drawing, resize, menu and movement code in `js/Game.js` are left out. Only the clamp of `updateWorld` is modelled.
- Timers (`setTimeout`, `requestAnimationFrame`) are explicit cues and events, not wall-clock time. Simon's playback highlights are one `StartPlayback`/`EndPlayback` pair, not per-pad timers.
- `Date.now()` is the `now` parameter of `Stealth.Frame`, and `Math.random()` is a sequence of draws.
- Node text, backgrounds and music keys of the story data are left out: the interpreter only displays them.
- `Host.Apply` interprets only the dialogue-view switch and `endDialogue`. The host defines no `endDialogue`, so that call raises a TypeError, and the model stops the host there.
- `Pipes.RotateAfterSolvedSchedulesAgain` is a concrete witness, not an all-boards lemma: a further click only schedules completion again when the board stays connected.
- `Dialogue.FindCharacter` models the character table as an association list. The story object has unique property keys; with a duplicated key the first entry would be used.
- `Dialogue.GetPortrait` and `Dialogue.PickImage` model an image as its path string, not the element the browser shows.
- `GameSystem.CheckMatch` models the 800 ms timer as a `Check` event. In the browser the callback is bound to the game object that set it, so a timer fired after `endGame` changes a game nobody sees; the model applies it only to the game that has two cards waiting.
- `Host.ClampToBar` is stated for real arithmetic. The browser computes in floating point.
- Text.LowerPointwise, Text.Lower and Dialogue.Submit: `toLowerCase` is modelled on the ASCII letters only. JavaScript also folds other letters (`É` to `é`) and can lengthen a string (`İ` becomes two code units), so an answer that differs from the stored one only in non-ASCII case is rejected here but accepted in the browser. The shipped answer, "Project Sundown", is ASCII, so the story-level results are unaffected.
- `effectsOnStart` (`js/Dialogue.js:92-94`) is not applied by `Dialogue.LoadScene`: no scene of the shipped story has entry effects, and `Dialogue.ApplyEffects` states what such a list would add.

## Findings

| source | as written | input that shows it | evidently intended | confidence | as-written member | corrected member |
|---|---|---|---|---|---|---|
| js/Dialogue.js:429 | `renderInputScene` clears `this.portraitEl`, which the constructor never sets (it sets only `leftPortraitEl` and `rightPortraitEl`), so a TypeError escapes before the answer form is attached; the previous scene's Continue button stays on screen, and `memory_break` and every scene after it can no longer be reached | entering the scene `kael_override` | the prompt and answer form appear and a correct answer loads `memory_break` | not executed; high | Dialogue.RenderInputSceneAsWritten, Dialogue.InputSceneTrapsChoiceAsWritten, StoryRun.OverrideTrapsAsWritten, StoryRun.BreakUnreachableAsWritten | Dialogue.RenderInputScene, StoryRun.OverrideFormAttached, StoryRun.OverrideAnswerAccepted |
| js/Minigames.js:308-318 | after the third safe move the animation loop is cancelled with `safe` still true, so each further Move click before the first `done` removes the overlay schedules `done` again, and each `done` calls the scene's completion callback | three safe Move clicks, then a fourth within the 300 ms before the first `done` fires; `safe` is frozen true once the loop is cancelled, so the fourth click's place in the sweep does not matter (`Stealth.FourthMoveSchedulesDoneTwice`); the callback then loads `chapter_end` twice (`StoryRun.EscapeCompletedTwiceLoadsEndTwice`) | the minigame completes once and its follow-up scene loads once | not executed; medium | Stealth.FourthMoveSchedulesDoneTwice, Minigames.AsWrittenNotifiesEachTime | Minigames.Done, Minigames.DoneNotifiesOnce |
| js/Minigames.js:210-219 | `onRotate` schedules `done` on every click that leaves the board connected, including clicks after the puzzle was solved and before the first `done` removes the overlay | a click on the top-left elbow within the 500 ms after the click that solved the board, before the first `done` fires (`Pipes.RotateAfterSolvedSchedulesAgain`) | completion is reported once | not executed; medium | Pipes.RotateAfterSolvedSchedulesAgain, Minigames.AsWrittenNotifiesEachTime | Minigames.Done, Minigames.DoneNotifiesOnce |
