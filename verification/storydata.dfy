/** Chapter 1 of Synthya's story ("The Memory-Loop") as a constant scene graph,
    with its character table and effect table. Node text is omitted (the
    interpreter only displays it); everything the interpreter branches on is kept:
    speaker, emotion, effect tags, choice targets, minigame descriptors and the
    input-puzzle triple. */
module StoryData {
  import opened Common
  import opened SceneGraph

  // ---------------------------------------------------------------------------
  // Shorthands for the data below
  // ---------------------------------------------------------------------------

  function Sys(fx: seq<string>): Node { Node(SystemSpeaker, None, fx) }
  function Synthya(emotion: string, fx: seq<string>): Node { Node("Synthya", Some(emotion), fx) }
  function Kael(emotion: string, fx: seq<string>): Node { Node("Kael", Some(emotion), fx) }
  function Go(caption: string, target: SceneId): Choice { Choice(caption, Some(target)) }

  function Talk(nodes: seq<Node>, choices: seq<Choice>): Scene
  {
    Scene(nodes, choices, None, None, None, None)
  }

  function Minigame(kind: string, difficulty: Option<string>, next: SceneId): Scene
  {
    Scene([], [], Some(MinigameDesc(Some(kind), difficulty, Some(next))), None, None, None)
  }

  // ---------------------------------------------------------------------------
  // The scenes
  // ---------------------------------------------------------------------------

  const KaelProjectArchive := Talk(
    [Sys(["scan"]), Kael("happy", [])],
    [Go("Back", "archive_intro")])

  const ArchiveIntro := Talk(
    [ Sys(["scan"]), Synthya("speak", []), Synthya("speak", ["glitch"]), Sys(["glitch"]),
      Synthya("speak", []), Sys(["glitch"]), Synthya("speak", ["flicker"]) ],
    [ Go("View 'KAEL - PROJECT ARCHIVE' (Optional)", "kael_project_archive"),
      Go("Interface with the memory", "memory_trap"),
      Go("Decline the client (Run diagnostics first)", "cannot_decline") ])

  const CannotDecline := Talk(
    [Synthya("sad", []), Synthya("speak", [])],
    [Go("Interface with the memory", "memory_trap")])

  const MemoryTrap := Talk(
    [Synthya("speak", ["scan"]), Sys(["glitch", "flicker"]), Sys(["glitch"])],
    [Go("Continue...", "loop_attempt_1")])

  const LoopAttempt1 := Talk(
    [Synthya("surprise", []), Synthya("speak", []), Kael("speak", []), Kael("speak", [])],
    [ Go("The next project? What...?", "loop_dialogue_1"),
      Go("Where am I?", "loop_dialogue_2"),
      Go("...Kael?", "loop_dialogue_3") ])

  /** The three loop dialogues share their nodes and differ in where "Continue" leads. */
  function LoopDialogue(next: SceneId): Scene
  {
    Talk([Kael("speak", []), Kael("speak", []), Sys(["flicker"])], [Go("Continue", next)])
  }

  const LoopAttempt2 := Talk(
    [Synthya("speak", ["flicker"]), Kael("speak", []), Kael("speak", ["flicker"])],
    [Go("Continue", "loop_dialogue_2")])

  const LoopAttempt3 := Talk(
    [Synthya("sad", ["glitch"]), Kael("happy", ["glitch"])],
    [Go("Continue", "loop_dialogue_3")])

  const LoopReset := Talk(
    [ Synthya("surprise", ["flicker"]), Kael("speak", []), Kael("speak", []),
      Synthya("surprise", []), Sys(["scan"]) ],
    [Go("Investigate the environment", "escape_room_hub")])

  const EscapeRoomHub := Talk([Synthya("speak", []), Synthya("speak", [])], [])

  const PuzzleJukebox := Talk(
    [Synthya("speak", []), Sys(["glitch"]), Synthya("speak", [])],
    [Go("Start the audio stitch", "jukebox_minigame")])

  const JukeboxMinigame := Minigame("audio_stitch", Some("medium"), "jukebox_solved")

  const JukeboxSolved := Talk(
    [Sys(["scan"]), Synthya("happy", []), Synthya("speak", [])],
    [Go("Continue investigating", "escape_room_hub_2")])

  const EscapeRoomHub2 := Talk([Synthya("speak", [])], [])

  const PuzzleSign := Talk(
    [Synthya("speak", ["flicker"]), Sys(["glitch"]), Synthya("speak", [])],
    [Go("Solve the circuit puzzle", "sign_minigame")])

  const SignMinigame := Minigame("memory_puzzle", Some("medium"), "sign_solved")

  const SignSolved := Talk(
    [ Sys(["scan"]), Synthya("happy", []), Sys(["glitch"]), Synthya("surprise", []),
      Synthya("speak", []) ],
    [Go("Confront Kael", "puzzle_kael_final")])

  const PuzzleKaelTalk := Talk(
    [Kael("speak", []), Synthya("speak", [])],
    [Go("Go back", "escape_room_hub")])

  const PuzzleKaelFinal := Talk(
    [Synthya("speak", []), Kael("speak", []), Synthya("speak", [])],
    [ Go("You're not Kael.", "kael_confrontation"),
      Go("What was our first project together?", "kael_question") ])

  const KaelQuestion := Talk(
    [Kael("speak", ["flicker"]), Synthya("speak", []), Kael("speak", ["glitch"]), Synthya("speak", [])],
    [Go("Continue", "kael_override")])

  const KaelConfrontation := Talk(
    [Kael("speak", ["flicker"]), Synthya("speak", []), Synthya("speak", []), Kael("speak", ["glitch"])],
    [Go("Continue", "kael_override")])

  const KaelOverride := Scene(
    [Synthya("speak", ["glitch"])], [], None,
    Some("[Override: What was your first project?]"), Some("Project Sundown"), Some("memory_break"))

  const MemoryBreak := Talk(
    [Kael("speak", ["glitch", "flicker"]), Sys(["glitch"]), Synthya("surprise", ["flicker"]), Sys(["glitch"])],
    [Go("Escape!", "archive_return")])

  const ArchiveReturn := Talk(
    [Sys([]), Synthya("sad", []), Sys(["glitch"]), Synthya("surprise", [])],
    [Go("Stabilize the data before it's lost!", "data_hack")])

  const DataHack := Minigame("hacking_puzzle", Some("hard"), "stealth_escape")

  const StealthEscape := Minigame("stealth_escape", None, "chapter_end")

  const ChapterEnd := Talk(
    [ Sys(["scan"]), Synthya("happy", []), Sys([]), Sys(["glitch"]), Synthya("speak", []),
      Synthya("speak", []), Synthya("speak", []), Synthya("sad", []), Sys(["scan"]), Sys([]) ],
    [Go("Return to The Grid", "archive_intro")])

  /** The `scenes` map. */
  const Scenes: Graph := map[
    "kael_project_archive" := KaelProjectArchive,
    "archive_intro" := ArchiveIntro,
    "cannot_decline" := CannotDecline,
    "memory_trap" := MemoryTrap,
    "loop_attempt_1" := LoopAttempt1,
    "loop_dialogue_1" := LoopDialogue("loop_attempt_2"),
    "loop_dialogue_2" := LoopDialogue("loop_attempt_3"),
    "loop_dialogue_3" := LoopDialogue("loop_reset"),
    "loop_attempt_2" := LoopAttempt2,
    "loop_attempt_3" := LoopAttempt3,
    "loop_reset" := LoopReset,
    "escape_room_hub" := EscapeRoomHub,
    "puzzle_jukebox" := PuzzleJukebox,
    "jukebox_minigame" := JukeboxMinigame,
    "jukebox_solved" := JukeboxSolved,
    "escape_room_hub_2" := EscapeRoomHub2,
    "puzzle_sign" := PuzzleSign,
    "sign_minigame" := SignMinigame,
    "sign_solved" := SignSolved,
    "puzzle_kael_talk" := PuzzleKaelTalk,
    "puzzle_kael_final" := PuzzleKaelFinal,
    "kael_question" := KaelQuestion,
    "kael_confrontation" := KaelConfrontation,
    "kael_override" := KaelOverride,
    "memory_break" := MemoryBreak,
    "archive_return" := ArchiveReturn,
    "data_hack" := DataHack,
    "stealth_escape" := StealthEscape,
    "chapter_end" := ChapterEnd
  ]

  /** The `characters` table, in declaration order. */
  const Characters: seq<(string, Character)> := [
    ("synthya", Character("Synthya", [
      ("speak", "assets/images/characters/synthya/poses/synthya-speak.png"),
      ("happy", "assets/images/characters/synthya/poses/synthya-happy.png"),
      ("sad", "assets/images/characters/synthya/poses/synthya-sad.png"),
      ("surprise", "assets/images/characters/synthya/poses/synthya-surprise.png")])),
    ("kael", Character("Kael", [
      ("speak", "assets/images/characters/kael/poses/kael-speak.png"),
      ("happy", "assets/images/characters/kael/poses/kael-laugh-glitch.png"),
      ("sad", "assets/images/characters/kael/poses/kael-sad.png"),
      ("surprise", "assets/images/characters/kael/poses/kael-surprised.png"),
      ("think", "assets/images/characters/kael/poses/kael-think.png"),
      ("wave", "assets/images/characters/kael/poses/kael-wave.png"),
      ("glitch", "assets/images/characters/kael/poses/kael-glitch.png")])),
    ("bartender", Character("Bartender", [
      ("speak", "assets/images/characters/synthya/poses/synthya-speak.png")]))
  ]

  /** The `effects` table. */
  const Effects: seq<(string, EffectSpec)> := [
    ("flicker", EffectSpec("screen_flicker", 500)),
    ("glitch", EffectSpec("glitch", 800)),
    ("scan", EffectSpec("scan_lines", 2000))
  ]

  /** The scene that the character-select "Play" button starts. */
  const EntryScene: SceneId := "archive_intro"

  // ---------------------------------------------------------------------------
  // Properties of the data
  // ---------------------------------------------------------------------------

  const ChoicelessScenes: set<SceneId> := {
    "escape_room_hub", "escape_room_hub_2", "kael_override",
    "jukebox_minigame", "sign_minigame", "data_hack", "stealth_escape" }

  const MinigameScenes: set<SceneId> := {"jukebox_minigame", "sign_minigame", "data_hack", "stealth_escape"}

  /** The scenes of the map, as values. */
  const OpeningValues: set<Scene> := { KaelProjectArchive, ArchiveIntro, CannotDecline, MemoryTrap, LoopAttempt1,
    LoopDialogue("loop_attempt_2"), LoopDialogue("loop_attempt_3"), LoopDialogue("loop_reset"), LoopAttempt2 }
  const EscapeRoomValues: set<Scene> := { LoopAttempt3, LoopReset, EscapeRoomHub, PuzzleJukebox, JukeboxMinigame,
    JukeboxSolved, EscapeRoomHub2, PuzzleSign, SignMinigame, SignSolved }
  const EndingValues: set<Scene> := { PuzzleKaelTalk, PuzzleKaelFinal, KaelQuestion, KaelConfrontation, KaelOverride,
    MemoryBreak, ArchiveReturn, DataHack, StealthEscape, ChapterEnd }
  const SceneValues: set<Scene> := OpeningValues + EscapeRoomValues + EndingValues

  /** Every entry of the map is one of the scene constants. */
  lemma SceneOf(id: SceneId)
    requires id in Scenes
    ensures Scenes[id] in SceneValues
  {
  }

  /** Scene keys, as a set literal. */
  const SceneIds: set<SceneId> := {
    "kael_project_archive", "archive_intro", "cannot_decline", "memory_trap", "loop_attempt_1",
    "loop_dialogue_1", "loop_dialogue_2", "loop_dialogue_3", "loop_attempt_2", "loop_attempt_3",
    "loop_reset", "escape_room_hub", "puzzle_jukebox", "jukebox_minigame", "jukebox_solved",
    "escape_room_hub_2", "puzzle_sign", "sign_minigame", "sign_solved", "puzzle_kael_talk",
    "puzzle_kael_final", "kael_question", "kael_confrontation", "kael_override", "memory_break",
    "archive_return", "data_hack", "stealth_escape", "chapter_end" }

  lemma SceneKeys()
    ensures Scenes.Keys == SceneIds
  {
  }

  /** Every choice of `s` names one of `ids`. */
  predicate ChoicesIn(s: Scene, ids: set<SceneId>)
  {
    forall i :: 0 <= i < |s.choices| ==> s.choices[i].nextScene.Some? && s.choices[i].nextScene.value in ids
  }

  /** Every effect tag on a node of `s` is one of `tags`. */
  predicate TagsIn(s: Scene, tags: set<string>)
  {
    forall i, k :: 0 <= i < |s.dialogue| && 0 <= k < |s.dialogue[i].effects| ==> s.dialogue[i].effects[k] in tags
  }

  /** A minigame scene carries no dialogue, choices or prompt. */
  predicate Bare(s: Scene)
  {
    s.minigame.Some? ==> |s.dialogue| == 0 && |s.choices| == 0 && s.inputPrompt.None?
  }

  /** A minigame's `onComplete` and an input puzzle's `nextOnCorrect` name one of `ids`. */
  predicate FollowUpsIn(s: Scene, ids: set<SceneId>)
  {
    && (s.minigame.Some? ==> s.minigame.value.onComplete.Some? && s.minigame.value.onComplete.value in ids)
    && (IsInputScene(s) ==> s.nextOnCorrect.Some? && s.nextOnCorrect.value in ids)
  }

  /** The speakers and poses the story uses: System, or a character with an emotion its image table lists. */
  predicate KnownPose(n: Node)
  {
    || n.speaker == SystemSpeaker
    || (n.speaker == "Synthya" && n.emotion in {Some("speak"), Some("happy"), Some("sad"), Some("surprise")})
    || (n.speaker == "Kael" && n.emotion in {Some("speak"), Some("happy")})
  }

  predicate PosesKnown(s: Scene)
  {
    forall k :: 0 <= k < |s.dialogue| ==> KnownPose(s.dialogue[k])
  }

  /** The scene after the override puzzle: only its `nextOnCorrect` leads there. */
  const BreakScene: SceneId := "memory_break"

  /** The per-scene facts every scene of the story has. */
  predicate SceneShape(s: Scene)
  {
    && ChoicesIn(s, SceneIds) && FollowUpsIn(s, SceneIds) && TagsIn(s, {"glitch", "flicker", "scan"})
    && Bare(s) && PosesKnown(s) && !LeadsTo(s, BreakScene)
  }

  // The per-scene facts, two scene constants at a time; the three lemmas after
  // them gather the pairs by part of the chapter.

  lemma ShapeGroup1()
    ensures SceneShape(KaelProjectArchive) && SceneShape(ArchiveIntro)
  {
  }

  lemma ShapeGroup2()
    ensures SceneShape(CannotDecline) && SceneShape(MemoryTrap)
  {
  }

  lemma ShapeGroup3()
    ensures SceneShape(LoopAttempt1) && SceneShape(LoopDialogue("loop_attempt_2"))
  {
  }

  lemma ShapeGroup4()
    ensures SceneShape(LoopDialogue("loop_attempt_3")) && SceneShape(LoopDialogue("loop_reset"))
  {
  }

  lemma ShapeGroup5()
    ensures SceneShape(LoopAttempt2) && SceneShape(LoopAttempt3)
  {
  }

  lemma ShapeGroup6()
    ensures SceneShape(LoopReset) && SceneShape(EscapeRoomHub)
  {
  }

  lemma ShapeGroup7()
    ensures SceneShape(PuzzleJukebox) && SceneShape(JukeboxMinigame)
  {
  }

  lemma ShapeGroup8()
    ensures SceneShape(JukeboxSolved) && SceneShape(EscapeRoomHub2)
  {
  }

  lemma ShapeGroup9()
    ensures SceneShape(PuzzleSign) && SceneShape(SignMinigame)
  {
  }

  lemma ShapeGroup10()
    ensures SceneShape(SignSolved) && SceneShape(PuzzleKaelTalk)
  {
  }

  lemma ShapeGroup11()
    ensures SceneShape(PuzzleKaelFinal) && SceneShape(KaelQuestion)
  {
  }

  lemma ShapeGroup12()
    ensures SceneShape(KaelConfrontation) && SceneShape(KaelOverride)
  {
  }

  lemma ShapeGroup13()
    ensures SceneShape(MemoryBreak) && SceneShape(ArchiveReturn)
  {
  }

  lemma ShapeGroup14()
    ensures SceneShape(DataHack) && SceneShape(StealthEscape)
  {
  }

  lemma ShapeGroup15()
    ensures SceneShape(ChapterEnd)
  {
  }

  lemma {:induction false} OpeningShaped()
    ensures forall s :: s in OpeningValues ==> SceneShape(s)
  {
    ShapeGroup1();
    ShapeGroup2();
    ShapeGroup3();
    ShapeGroup4();
    ShapeGroup5();
  }

  lemma {:induction false} EscapeRoomShaped()
    ensures forall s :: s in EscapeRoomValues ==> SceneShape(s)
  {
    ShapeGroup5();
    ShapeGroup6();
    ShapeGroup7();
    ShapeGroup8();
    ShapeGroup9();
    ShapeGroup10();
  }

  lemma {:induction false} EndingShaped()
    ensures forall s :: s in EndingValues ==> SceneShape(s)
  {
    ShapeGroup10();
    ShapeGroup11();
    ShapeGroup12();
    ShapeGroup13();
    ShapeGroup14();
    ShapeGroup15();
  }

  /** Every scene of the story has the per-scene facts. */
  lemma {:induction false} AllScenesShaped()
    ensures forall id :: id in Scenes ==> SceneShape(Scenes[id])
  {
    OpeningShaped();
    EscapeRoomShaped();
    EndingShaped();
    forall id | id in Scenes ensures SceneShape(Scenes[id]) {
      SceneOf(id);
    }
  }

  /** Every choice target names a scene. */
  lemma ChoiceTargetsResolve()
    ensures ChoicesResolve(Scenes)
  {
    AllScenesShaped();
    SceneKeys();
    forall id, i | id in Scenes && 0 <= i < |Scenes[id].choices|
      ensures Resolves(Scenes, Scenes[id].choices[i].nextScene)
    {
      assert ChoicesIn(Scenes[id], SceneIds);
    }
  }

  /** Every minigame follow-up and the input puzzle's `nextOnCorrect` name a scene. */
  lemma FollowUpTargetsResolve()
    ensures FollowUpsResolve(Scenes)
  {
    AllScenesShaped();
    SceneKeys();
    forall id | id in Scenes ensures FollowUpsIn(Scenes[id], Scenes.Keys) {
      assert FollowUpsIn(Scenes[id], SceneIds);
    }
  }

  /** Minigame scenes carry nothing the minigame-first dispatch would hide. */
  lemma MinigameScenesShape()
    ensures MinigameScenesAreBare(Scenes)
  {
    AllScenesShaped();
    forall id | id in Scenes && Scenes[id].minigame.Some?
      ensures |Scenes[id].dialogue| == 0 && |Scenes[id].choices| == 0 && Scenes[id].inputPrompt.None?
    {
      assert Bare(Scenes[id]);
    }
  }

  /** The scenes that launch a minigame are exactly the four listed. */
  lemma MinigameScenesListed()
    ensures forall id :: id in Scenes ==> (Scenes[id].minigame.Some? <==> id in MinigameScenes)
  {
  }

  /** Only `kael_override` is an input puzzle. */
  lemma InputScenes()
    ensures forall id :: id in Scenes ==> (IsInputScene(Scenes[id]) <==> id == "kael_override")
  {
  }

  /** The scenes without choices are the two free-roam hubs, the input puzzle and the four minigames. */
  lemma ScenesWithoutChoices()
    ensures forall id :: id in Scenes ==> (|Scenes[id].choices| == 0 <==> id in ChoicelessScenes)
  {
  }

  /** Every node's effect tags are glitch/flicker/scan, and exactly those are declared in the effect table. */
  lemma EffectTagsDeclared()
    ensures Keys(Effects) == {"glitch", "flicker", "scan"}
    ensures EffectTagsIn(Scenes, Keys(Effects))
  {
    KeysOfTail(Effects);
    KeysOfTail(Effects[1..]);
    KeysOfTail(Effects[2..]);
    assert Keys(Effects[3..]) == {};
    AllScenesShaped();
    forall id, i, k | id in Scenes && 0 <= i < |Scenes[id].dialogue| && 0 <= k < |Scenes[id].dialogue[i].effects|
      ensures Scenes[id].dialogue[i].effects[k] in Keys(Effects)
    {
      assert TagsIn(Scenes[id], {"glitch", "flicker", "scan"});
    }
  }

  /** No choice and no minigame completion leads to `memory_break`; the override
      puzzle's `nextOnCorrect` is the one way in. */
  lemma BreakOnlyAfterOverride()
    ensures NoEdgeInto(Scenes, BreakScene)
    ensures Scenes["kael_override"].nextOnCorrect == Some(BreakScene)
  {
    AllScenesShaped();
    forall id | id in Scenes ensures !LeadsTo(Scenes[id], BreakScene) {
      assert SceneShape(Scenes[id]);
    }
  }

  lemma StoryWellFormed()
    ensures WellFormed(Scenes)
  {
    ChoiceTargetsResolve();
    FollowUpTargetsResolve();
    MinigameScenesShape();
  }
}
