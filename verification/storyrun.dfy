/** Facts about the shipped story as the interpreter, the minigame harness and the
    host run it: every portrait resolves, every minigame type has its own builder,
    the input puzzle accepts its answer in any case and padding, and the places where
    the code as written goes wrong. */
module StoryRun {
  import opened Common
  import opened Text
  import opened SceneGraph
  import StoryData
  import Dialogue
  import Minigames
  import Host

  /** Every node is a System node or one of the poses the character table draws. */
  lemma StoryPoses()
    ensures forall id, k :: id in StoryData.Scenes && 0 <= k < |StoryData.Scenes[id].dialogue| ==>
      StoryData.KnownPose(StoryData.Scenes[id].dialogue[k])
  {
    StoryData.AllScenesShaped();
    forall id, k | id in StoryData.Scenes && 0 <= k < |StoryData.Scenes[id].dialogue|
      ensures StoryData.KnownPose(StoryData.Scenes[id].dialogue[k])
    {
      assert StoryData.PosesKnown(StoryData.Scenes[id]);
    }
  }

  /** A string with no outer white space normalises to its letter-by-letter lower-casing. */
  lemma NormalizeWord(s: string, key: string)
    requires |s| > 0 && !IsSpace(s[0]) && !IsSpace(s[|s| - 1])
    requires |key| == |s| && forall i :: 0 <= i < |s| ==> key[i] == LowerChar(s[i])
    ensures Normalize(s) == key
  {
    TrimOfTrimmed(s);
  }

  /** A capitalised lower-case word normalises to its all-lower-case spelling. */
  lemma NormalizeName(s: string, key: string)
    requires |s| > 0 && 'A' <= s[0] <= 'Z'
    requires forall i :: 1 <= i < |s| ==> 'a' <= s[i] <= 'z'
    requires |key| == |s| && key[0] == LowerChar(s[0]) && key[1..] == s[1..]
    ensures Normalize(s) == key
  {
    forall i | 0 <= i < |s| ensures key[i] == LowerChar(s[i]) {
      if i > 0 {
        assert key[i] == key[1..][i - 1];
      }
    }
    NormalizeWord(s, key);
  }

  /** A lower-case word is its own lower-case spelling. */
  lemma LowerOfLowerWord(s: string)
    requires forall i :: 0 <= i < |s| ==> 'a' <= s[i] <= 'z'
    ensures Lower(s) == s
  {
  }

  /** The speaker names normalise to the characters' keys. */
  lemma SpeakerKeys()
    ensures Normalize("Synthya") == "synthya" && Normalize("Kael") == "kael"
  {
    NormalizeName("Synthya", "synthya");
    NormalizeName("Kael", "kael");
  }

  /** `getPortrait` finds Synthya's and Kael's entries by their lower-cased names. */
  lemma CharactersFound()
    ensures Dialogue.FindCharacter(StoryData.Characters, "synthya") == Some(StoryData.Characters[0].1)
    ensures Dialogue.FindCharacter(StoryData.Characters, "kael") == Some(StoryData.Characters[1].1)
  {
    LowerOfLowerWord("synthya");
    LowerOfLowerWord("kael");
    assert Lower(StoryData.Characters[0].1.name) == "synthya";
    assert Lower(StoryData.Characters[1].1.name) == "kael";
    assert StoryData.Characters[1..][0] == StoryData.Characters[1];
  }

  /** A key present in a table whose values are all non-empty looks up to a non-empty value. */
  lemma PresentKeyTruthy(table: seq<(string, string)>, key: string, i: nat)
    requires forall j :: 0 <= j < |table| ==> |table[j].1| > 0
    requires i < |table| && table[i].0 == key
    ensures Truthy(Lookup(table, key))
  {
    assert key in Keys(table);
    var v := Lookup(table, key).value;
    var j :| 0 <= j < |table| && table[j] == (key, v);
  }

  /** Every image path of Synthya's entry is non-empty. */
  lemma SynthyaImagesPresent()
    ensures var t := StoryData.Characters[0].1.images;
      |t| == 4 && forall j :: 0 <= j < |t| ==> |t[j].1| > 0
  {
  }

  /** Every image path of Kael's entry is non-empty. */
  lemma KaelImagesPresent()
    ensures var t := StoryData.Characters[1].1.images;
      |t| == 7 && forall j :: 0 <= j < |t| ==> |t[j].1| > 0
  {
  }

  /** The portrait of a found character's pose, when that pose has an image. */
  lemma PortraitVia(chars: seq<(string, Character)>, speaker: string, key: string, c: Character, e: string)
    requires |speaker| > 0 && Normalize(speaker) == key
    requires Dialogue.FindCharacter(chars, key) == Some(c)
    requires |e| > 0 && Truthy(Lookup(c.images, e))
    ensures Dialogue.GetPortrait(chars, Some(speaker), Some(e)) == Lookup(c.images, e)
  {
    assert Dialogue.GetPortrait(chars, Some(speaker), Some(e)) == Dialogue.PickImage(c.images, Some(e));
  }

  /** Synthya's four poses each have their own image. */
  lemma SynthyaPortrait(e: string)
    requires e in {"speak", "happy", "sad", "surprise"}
    ensures var c := StoryData.Characters[0].1;
      && Truthy(Lookup(c.images, e))
      && Dialogue.GetPortrait(StoryData.Characters, Some("Synthya"), Some(e)) == Lookup(c.images, e)
  {
    var c := StoryData.Characters[0].1;
    var i := if e == "speak" then 0 else if e == "happy" then 1 else if e == "sad" then 2 else 3;
    SynthyaImagesPresent();
    assert c.images[i].0 == e;
    PresentKeyTruthy(c.images, e, i);
    SpeakerKeys();
    CharactersFound();
    PortraitVia(StoryData.Characters, "Synthya", "synthya", c, e);
  }

  /** Kael's two poses each have their own image. */
  lemma KaelPortrait(e: string)
    requires e in {"speak", "happy"}
    ensures var c := StoryData.Characters[1].1;
      && Truthy(Lookup(c.images, e))
      && Dialogue.GetPortrait(StoryData.Characters, Some("Kael"), Some(e)) == Lookup(c.images, e)
  {
    var c := StoryData.Characters[1].1;
    var i := if e == "speak" then 0 else 1;
    KaelImagesPresent();
    assert c.images[i].0 == e;
    PresentKeyTruthy(c.images, e, i);
    SpeakerKeys();
    CharactersFound();
    PortraitVia(StoryData.Characters, "Kael", "kael", c, e);
  }

  /** The pose a character node names has its own image. */
  lemma PortraitOfPose(n: Node)
    requires StoryData.KnownPose(n) && n.speaker != SystemSpeaker
    ensures n.emotion.Some?
    ensures var c := Dialogue.FindCharacter(StoryData.Characters, Normalize(n.speaker));
      && c.Some?
      && Truthy(Lookup(c.value.images, n.emotion.value))
      && Dialogue.GetPortrait(StoryData.Characters, Some(n.speaker), n.emotion) == Lookup(c.value.images, n.emotion.value)
  {
    SpeakerKeys();
    CharactersFound();
    if n.speaker == "Synthya" {
      SynthyaPortrait(n.emotion.value);
    } else {
      KaelPortrait(n.emotion.value);
    }
  }

  /** Every character node in the story gets the portrait of its own pose. */
  lemma PortraitsResolve()
    ensures forall id, k :: id in StoryData.Scenes && 0 <= k < |StoryData.Scenes[id].dialogue| ==>
      var n := StoryData.Scenes[id].dialogue[k];
      n.speaker != SystemSpeaker ==>
        && n.emotion.Some?
        && Truthy(Dialogue.GetPortrait(StoryData.Characters, Some(n.speaker), n.emotion))
        && Dialogue.GetPortrait(StoryData.Characters, Some(n.speaker), n.emotion)
           == Lookup(Dialogue.FindCharacter(StoryData.Characters, Normalize(n.speaker)).value.images, n.emotion.value)
  {
    StoryPoses();
    forall id, k | id in StoryData.Scenes && 0 <= k < |StoryData.Scenes[id].dialogue| &&
      StoryData.Scenes[id].dialogue[k].speaker != SystemSpeaker
      ensures var n := StoryData.Scenes[id].dialogue[k];
        && n.emotion.Some?
        && Truthy(Dialogue.GetPortrait(StoryData.Characters, Some(n.speaker), n.emotion))
        && Dialogue.GetPortrait(StoryData.Characters, Some(n.speaker), n.emotion)
           == Lookup(Dialogue.FindCharacter(StoryData.Characters, Normalize(n.speaker)).value.images, n.emotion.value)
    {
      PortraitOfPose(StoryData.Scenes[id].dialogue[k]);
    }
  }

  /** The four minigame scenes name the four puzzle builders: none falls back to the
      generic Complete button. The sign's `memory_puzzle` is the pipe puzzle. */
  lemma MinigameKinds()
    ensures Minigames.KindOf(StoryData.Scenes["jukebox_minigame"].minigame.value) == Minigames.WaveStitch
    ensures Minigames.KindOf(StoryData.Scenes["sign_minigame"].minigame.value) == Minigames.PipeRotation
    ensures Minigames.KindOf(StoryData.Scenes["data_hack"].minigame.value) == Minigames.SimonPads
    ensures Minigames.KindOf(StoryData.Scenes["stealth_escape"].minigame.value) == Minigames.StealthEscape
  {
  }

  /** No minigame scene of the story falls back to the generic Complete button. */
  lemma NoGenericMinigame()
    ensures forall id :: id in StoryData.Scenes && StoryData.Scenes[id].minigame.Some? ==>
      Minigames.KindOf(StoryData.Scenes[id].minigame.value) != Minigames.CompleteButton
  {
    StoryData.MinigameScenesListed();
    MinigameKinds();
  }

  /** The scene a click on Kael starts is not in the story. */
  lemma KaelSceneMissing()
    ensures Host.KaelScene !in StoryData.Scenes
  {
  }

  /** So the click ends in the not-found path and the host stays in the world view. */
  lemma KaelClickEndsAtOnce(h: Host.Host, bar: Host.Rect, kael: Host.Rect, cx: real, cy: real, b: Dialogue.Build)
    requires h.gameState == "world" && Host.PointInKael(kael, cx, cy)
    ensures var r := Host.HandleWorldClick(StoryData.Scenes, h, bar, kael, cx, cy, b);
      r.0.gameState == "world" && Count(r.1, Dialogue.EndDialogue) == 1
  {
    KaelSceneMissing();
    Host.KaelClickWithoutScene(StoryData.Scenes, h, bar, kael, cx, cy, b);
    var es := [Dialogue.Load(Some(Host.KaelScene)), Dialogue.EndDialogue, Dialogue.EnterDialogueView];
    assert multiset(es)[Dialogue.EndDialogue] == 1;
  }

  /** The character-select Play button's scene exists. */
  lemma EntrySceneExists()
    ensures StoryData.EntryScene in StoryData.Scenes
  {
  }

  /** As written, the "Continue" of `kael_confrontation` or `kael_question` enters
      `kael_override`, which faults before its form is attached: the "Continue"
      button stays on screen, and pressing it again repeats the same step. */
  lemma OverrideTrapsAsWritten(st: Dialogue.State, from: SceneId, o: Dialogue.Origin)
    requires from == "kael_confrontation" || from == "kael_question"
    requires st.panel == Dialogue.Buttons(Dialogue.Attach(StoryData.Scenes[from].choices, o))
    ensures var c := Dialogue.ChooseChoice(StoryData.Scenes, st, 0, Dialogue.AsWritten);
      && c.st.sceneId == Some("kael_override")
      && c.effects == [Dialogue.Load(Some("kael_override")), Dialogue.Fault]
      && c.st.panel == st.panel
      && Dialogue.ChooseChoice(StoryData.Scenes, c.st, 0, Dialogue.AsWritten) == c
  {
    assert StoryData.Scenes[from].choices == [StoryData.Go("Continue", "kael_override")];
    assert StoryData.Scenes["kael_override"] == StoryData.KaelOverride;
    Dialogue.InputSceneTrapsChoiceAsWritten(StoryData.Scenes, st, 0);
  }

  /** As written, `startStory("kael_override")` registers the key listener and then
      stops at the TypeError inside `loadScene`: the host view is never switched. The
      repaired build reaches the switch after attaching the form. */
  lemma StartOnOverride(st: Dialogue.State)
    ensures var r := Dialogue.StartStory(StoryData.Scenes, st, "kael_override", Dialogue.AsWritten);
      && r.st.keysActive
      && r.effects == [Dialogue.Load(Some("kael_override")), Dialogue.Fault]
    ensures var r := Dialogue.StartStory(StoryData.Scenes, st, "kael_override", Dialogue.Repaired);
      && Dialogue.Fault !in r.effects
      && r.effects[|r.effects| - 1] == Dialogue.EnterDialogueView
  {
    assert StoryData.Scenes["kael_override"] == StoryData.KaelOverride;
  }

  /** A completion event of one of the story's minigames. */
  predicate StoryCompletion(ev: Dialogue.Event)
  {
    ev.Completed? ==> exists id :: id in StoryData.Scenes && StoryData.Scenes[id].minigame == Some(ev.desc)
  }

  /** As written, no sequence of player events and story minigame completions ever
      loads `memory_break`, unless a run starts the story there directly: the only
      way in is the override form, which is never attached. The repaired build
      reaches it (`OverrideAnswerAccepted`). */
  lemma BreakUnreachableAsWritten(st: Dialogue.State, evs: seq<Dialogue.Event>)
    requires Dialogue.PanelAvoids(st.panel, StoryData.BreakScene)
    requires forall i :: 0 <= i < |evs| ==> evs[i] != Dialogue.Start(StoryData.BreakScene) && StoryCompletion(evs[i])
    ensures Dialogue.Load(Some(StoryData.BreakScene)) !in Dialogue.Run(StoryData.Scenes, st, evs, Dialogue.AsWritten).effects
  {
    StoryData.BreakOnlyAfterOverride();
    forall i | 0 <= i < |evs| ensures Dialogue.EventAvoids(evs[i], StoryData.BreakScene) {
      if evs[i].Completed? {
        var id :| id in StoryData.Scenes && StoryData.Scenes[id].minigame == Some(evs[i].desc);
        assert !LeadsTo(StoryData.Scenes[id], StoryData.BreakScene);
      }
    }
    Dialogue.AsWrittenNeverLoads(StoryData.Scenes, st, evs, StoryData.BreakScene);
  }

  /** Corrected, entering `kael_override` attaches the form for "Project Sundown" leading to `memory_break`. */
  lemma OverrideFormAttached(st: Dialogue.State)
    ensures var r := Dialogue.LoadScene(StoryData.Scenes, st, Some("kael_override"), Dialogue.Repaired);
      r.st.panel == Dialogue.InputForm(Some("Project Sundown"), Some("memory_break"))
  {
    assert StoryData.Scenes["kael_override"] == StoryData.KaelOverride;
  }

  /** The override answer's normal form. */
  lemma OverrideKey()
    ensures Dialogue.AnswerKey(Some("Project Sundown")) == "project sundown"
  {
    NormalizeWord("Project Sundown", "project sundown");
  }

  /** The override answer is accepted in any letter case and with surrounding spaces. */
  lemma OverrideAnswerAccepted(st: Dialogue.State, text: string)
    requires st.panel == Dialogue.InputForm(Some("Project Sundown"), Some("memory_break"))
    requires Normalize(text) == "project sundown"
    ensures Dialogue.Submit(StoryData.Scenes, st, text, Dialogue.Repaired)
      == Dialogue.LoadScene(StoryData.Scenes, st, Some("memory_break"), Dialogue.Repaired)
  {
    OverrideKey();
  }

  /** The escape's completion callback is not guarded: when the stealth puzzle
      schedules `done` twice (see `Stealth.FourthMoveSchedulesDoneTwice`), the
      final chapter is loaded twice. */
  lemma EscapeCompletedTwiceLoadsEndTwice(st: Dialogue.State, b: Dialogue.Build)
    ensures var desc := StoryData.Scenes["stealth_escape"].minigame.value;
      && desc.onComplete == Some("chapter_end")
      && Count(Dialogue.Run(StoryData.Scenes, st, [Dialogue.Completed(desc), Dialogue.Completed(desc)], b).effects,
               Dialogue.Load(Some("chapter_end"))) >= 2
  {
    var desc := StoryData.Scenes["stealth_escape"].minigame.value;
    assert desc == StoryData.StealthEscape.minigame.value;
    Dialogue.CompletionIsNotGuarded(StoryData.Scenes, st, desc, b);
  }
}
