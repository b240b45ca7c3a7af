/** The scene interpreter of `Dialogue.js`.

    The interpreter owns a cursor (current scene id, its dialogue nodes, the node
    index), whether a System overlay is showing, what the choice panel holds, and
    whether its keyboard listener is registered. Every handler is a pure function
    from a state and one event to the next state and the calls it makes into the
    host, in order. `Load(t)` marks each call of `loadScene(t)` so the number of
    scene loads, like the number of `endDialogue` calls, can be counted. */
module Dialogue {
  import opened Common
  import opened Text
  import opened SceneGraph

  /** Progress flags in the host's flag store. */
  datatype Flag = JukeboxFixed | SignFixed

  /** Which code attached a choice button; the two differ when `nextScene` is missing. */
  datatype Origin = FromLastNode | FromChoicesOrEnd

  datatype Button = Button(choice: Choice, origin: Origin)

  /** Contents of the choice panel: nothing, choice buttons, or the input puzzle's form
      (holding the answer and target it compares against). */
  datatype Panel = Cleared | Buttons(buttons: seq<Button>) | InputForm(answer: Option<string>, next: Option<SceneId>)

  /** `flags` is the host's flag store, `None` when the host has none. */
  datatype State = State(
    sceneId: Option<SceneId>,
    nodes: seq<Node>,
    index: nat,
    overlay: bool,
    panel: Panel,
    flags: Option<set<Flag>>,
    keysActive: bool)

  /** What a handler does outside its own state, in order. */
  datatype Effect =
    | Load(target: Option<SceneId>)   // loadScene(target) was entered
    | EndDialogue                     // game.endDialogue()
    | SetFlag(flag: Flag)             // game.flags.<flag> = true
    | RunMinigame(desc: MinigameDesc) // Minigames.run(desc, callback)
    | ShowNode(index: nat)            // a character node was rendered
    | ShowSystem(index: nat)          // a System overlay was rendered
    | ShowInput(prompt: string)       // the input form was attached
    | RejectInput                     // "Incorrect. Try again." feedback
    | EnterDialogueView               // game.changeState('dialogue')
    | Fault                           // a TypeError escaped the handler

  datatype Step = Step(st: State, effects: seq<Effect>)

  /** The element an event was aimed at, as far as the handlers look at it. */
  datatype Target = ChoiceButton | TextInput | TextArea | Elsewhere

  /** Which `renderInputScene` the interpreter runs: the code as written, whose
      first write to the never-assigned `portraitEl` throws, or the repaired one
      that attaches the answer form. */
  datatype Build = AsWritten | Repaired

  /** The interpreter as constructed: no scene, no listener. */
  function Initial(flags: Option<set<Flag>>): State
  {
    State(None, [], 0, false, Cleared, flags, false)
  }

  // ---------------------------------------------------------------------------
  // The invariant every handler keeps
  // ---------------------------------------------------------------------------

  /** The cursor names a loaded scene, the index stays within `max(0, len - 1)`,
      and an overlay shows only on a System node. */
  predicate Inv(g: Graph, st: State)
  {
    && (st.sceneId.None? ==> st.nodes == [] && st.index == 0)
    && (st.sceneId.Some? ==> st.sceneId.value in g && st.nodes == g[st.sceneId.value].dialogue)
    && (if |st.nodes| == 0 then st.index == 0 else st.index < |st.nodes|)
    && (st.overlay ==> st.index < |st.nodes| && st.nodes[st.index].speaker == SystemSpeaker)
  }

  /** The choices of the current scene, or none when no scene is loaded. */
  function CurrentChoices(g: Graph, st: State): seq<Choice>
  {
    if st.sceneId.Some? && st.sceneId.value in g then g[st.sceneId.value].choices else []
  }

  function Attach(choices: seq<Choice>, origin: Origin): (bs: seq<Button>)
    ensures |bs| == |choices|
    ensures forall i :: 0 <= i < |bs| ==> bs[i] == Button(choices[i], origin)
  {
    seq(|choices|, i requires 0 <= i < |choices| => Button(choices[i], origin))
  }

  // ---------------------------------------------------------------------------
  // Flag side effects on scene entry
  // ---------------------------------------------------------------------------

  /** The hard-coded table of scene ids whose entry sets a flag. */
  function FlagFor(id: SceneId): (r: Option<Flag>)
    ensures r.Some? <==> id == "jukebox_solved" || id == "sign_solved"
  {
    if id == "jukebox_solved" then Some(JukeboxFixed)
    else if id == "sign_solved" then Some(SignFixed)
    else None
  }

  /** Applies the table to the host's store; without a store nothing is written. */
  function EnterFlags(flags: Option<set<Flag>>, id: SceneId): (r: (Option<set<Flag>>, seq<Effect>))
    ensures r.0.Some? <==> flags.Some?
    ensures flags.Some? ==> flags.value <= r.0.value && r.0.value - flags.value <= {JukeboxFixed, SignFixed}
    ensures |r.1| <= 1 && (|r.1| == 1 <==> flags.Some? && FlagFor(id).Some?)
  {
    match (flags, FlagFor(id))
    case (Some(fs), Some(f)) => (Some(fs + {f}), [SetFlag(f)])
    case _ => (flags, [])
  }

  // ---------------------------------------------------------------------------
  // Rendering
  // ---------------------------------------------------------------------------

  /** `renderChoicesOrEnd`: the scene's choices if it has any, otherwise end the dialogue. */
  function RenderChoicesOrEnd(g: Graph, st: State): (r: Step)
    ensures r.st == st.(panel := r.st.panel)
    ensures |CurrentChoices(g, st)| > 0 ==> r == Step(st.(panel := Buttons(Attach(CurrentChoices(g, st), FromChoicesOrEnd))), [])
    ensures |CurrentChoices(g, st)| == 0 ==> r == Step(st.(panel := Cleared), [EndDialogue])
  {
    var choices := CurrentChoices(g, st);
    if |choices| > 0 then Step(st.(panel := Buttons(Attach(choices, FromChoicesOrEnd))), [])
    else Step(st.(panel := Cleared), [EndDialogue])
  }

  /** `renderNode`: past the end, choices or end; a System node opens the overlay and
      clears the panel; a character node attaches the choices only on the last index.
      An empty choice list attaches no button, which is shown here as a cleared panel. */
  function RenderNode(g: Graph, st: State): (r: Step)
    ensures r.st.sceneId == st.sceneId && r.st.nodes == st.nodes && r.st.index == st.index
    ensures r.st.flags == st.flags && r.st.keysActive == st.keysActive
    ensures st.index + 1 < |st.nodes| ==> r.st.panel == Cleared && Count(r.effects, EndDialogue) == 0
    ensures st.index < |st.nodes| && st.nodes[st.index].speaker == SystemSpeaker ==>
      r == Step(st.(overlay := true, panel := Cleared), [ShowSystem(st.index)])
    ensures st.index < |st.nodes| && st.nodes[st.index].speaker != SystemSpeaker ==>
      r.effects == [ShowNode(st.index)] && r.st.overlay == st.overlay
    ensures r.st.panel.Buttons? && st.index < |st.nodes| ==>
      st.index == |st.nodes| - 1 && st.nodes[st.index].speaker != SystemSpeaker
      && r.st.panel.buttons == Attach(CurrentChoices(g, st), FromLastNode)
    ensures st.index + 1 == |st.nodes| && st.nodes[st.index].speaker != SystemSpeaker ==>
      (r.st.panel.Buttons? <==> |CurrentChoices(g, st)| > 0)
  {
    if st.index >= |st.nodes| then RenderChoicesOrEnd(g, st)
    else if st.nodes[st.index].speaker == SystemSpeaker then
      Step(st.(overlay := true, panel := Cleared), [ShowSystem(st.index)])
    else
      var panel := if st.index == |st.nodes| - 1 && |CurrentChoices(g, st)| > 0
        then Buttons(Attach(CurrentChoices(g, st), FromLastNode)) else Cleared;
      Step(st.(panel := panel), [ShowNode(st.index)])
  }

  /** `renderInputScene` as intended: attach the prompt's form. */
  function RenderInputScene(st: State, scene: Scene): (r: Step)
    requires IsInputScene(scene)
    ensures r.st == st.(panel := InputForm(scene.inputAnswer, scene.nextOnCorrect))
    ensures r.effects == [ShowInput(scene.inputPrompt.value)]
  {
    Step(st.(panel := InputForm(scene.inputAnswer, scene.nextOnCorrect)), [ShowInput(scene.inputPrompt.value)])
  }

  /** `renderInputScene` as written: `this.portraitEl` is never assigned, so
      `this.portraitEl.innerHTML = ''` throws before the form is built. The panel
      keeps whatever the previous scene left in it. */
  function RenderInputSceneAsWritten(st: State, scene: Scene): (r: Step)
    requires IsInputScene(scene)
    ensures r.st.panel == st.panel && Fault in r.effects
    ensures forall e :: e in r.effects ==> !e.ShowInput?
  {
    Step(st, [Fault])
  }

  // ---------------------------------------------------------------------------
  // loadScene
  // ---------------------------------------------------------------------------

  /** `loadScene(target)`: an unknown id ends the dialogue and touches nothing else;
      a known id clears overlays, applies the flag table, resets the cursor and
      dispatches minigame first, then input puzzle, then dialogue. It reports its
      own target once and never loads another scene. */
  function LoadScene(g: Graph, st: State, target: Option<SceneId>, b: Build): (r: Step)
    ensures |r.effects| > 0 && r.effects[0] == Load(target)
    ensures forall i :: 0 < i < |r.effects| ==> !r.effects[i].Load?
    ensures EnterDialogueView !in r.effects
    ensures !Resolves(g, target) ==> r == Step(st, [Load(target), EndDialogue])
    ensures Resolves(g, target) ==>
      && r.st.sceneId == target && r.st.nodes == g[target.value].dialogue && r.st.index == 0
      && r.st.flags == EnterFlags(st.flags, target.value).0
      && r.st.keysActive == st.keysActive
      && Inv(g, r.st)
  {
    if !Resolves(g, target) then Step(st, [Load(target), EndDialogue])
    else
      var id := target.value;
      var scene := g[id];
      var (flags, flagEffects) := EnterFlags(st.flags, id);
      var st1 := st.(sceneId := target, nodes := scene.dialogue, index := 0, overlay := false, flags := flags);
      var entry := [Load(target)] + flagEffects;
      if scene.minigame.Some? then
        Step(st1, entry + [RunMinigame(scene.minigame.value)])
      else if Truthy(scene.inputPrompt) then
        var r := if b == Repaired then RenderInputScene(st1, scene) else RenderInputSceneAsWritten(st1, scene);
        Step(r.st, entry + r.effects)
      else
        var r := RenderNode(g, st1);
        Step(r.st, entry + r.effects + (if |scene.dialogue| == 0 then [EndDialogue] else []))
  }

  // ---------------------------------------------------------------------------
  // Event handlers
  // ---------------------------------------------------------------------------

  /** Removing the overlay: the next node, or choices-or-end on the last one. */
  function DismissOverlay(g: Graph, st: State): (r: Step)
    ensures r.st.sceneId == st.sceneId && r.st.nodes == st.nodes
    ensures r.st.flags == st.flags && r.st.keysActive == st.keysActive
    ensures r.st.index == if st.index + 1 < |st.nodes| then st.index + 1 else st.index
    ensures st.index + 1 >= |st.nodes| ==> !r.st.overlay
    ensures forall e :: e in r.effects ==> !e.Load?
  {
    var st1 := st.(overlay := false);
    if st.index + 1 < |st.nodes| then RenderNode(g, st1.(index := st.index + 1))
    else RenderChoicesOrEnd(g, st1)
  }

  /** `onClick` on the dialogue view. Clicks on a choice button are left to the button. */
  function OnClick(g: Graph, st: State, target: Target): (r: Step)
    ensures target == ChoiceButton ==> r == Step(st, [])
    ensures r.st.sceneId == st.sceneId && r.st.nodes == st.nodes
    ensures r.st.flags == st.flags && r.st.keysActive == st.keysActive
    ensures forall e :: e in r.effects ==> !e.Load? && e != Fault
    ensures EndDialogue in r.effects ==> |CurrentChoices(g, st)| == 0
  {
    if target == ChoiceButton then Step(st, [])
    else if st.overlay then DismissOverlay(g, st)
    else if st.sceneId.None? || st.sceneId.value !in g then Step(st, [])
    else if st.index + 1 < |st.nodes| then RenderNode(g, st.(index := st.index + 1))
    else if |g[st.sceneId.value].choices| == 0 then Step(st, [EndDialogue])
    else Step(st, [])
  }

  /** The three conditions under which a key press may advance the dialogue. */
  predicate KeyAdvances(gameState: string, target: Target, code: string)
  {
    gameState == "dialogue" && target != TextInput && target != TextArea && (code == "Space" || code == "Enter")
  }

  /** `onKeyPress`. With no scene loaded the final `scene.choices` read throws. */
  function OnKeyPress(g: Graph, st: State, gameState: string, target: Target, code: string): (r: Step)
    ensures !KeyAdvances(gameState, target, code) ==> r == Step(st, [])
    ensures r.st.sceneId == st.sceneId && r.st.nodes == st.nodes
    ensures r.st.flags == st.flags && r.st.keysActive == st.keysActive
    ensures forall e :: e in r.effects ==> !e.Load?
    ensures Fault in r.effects ==> st.sceneId.None? || st.sceneId.value !in g
  {
    if !KeyAdvances(gameState, target, code) then Step(st, [])
    else if st.overlay then DismissOverlay(g, st)
    else
      var known := st.sceneId.Some? && st.sceneId.value in g;
      if known && |g[st.sceneId.value].choices| > 0 && st.index + 1 >= |st.nodes| then Step(st, [])
      else if st.index + 1 < |st.nodes| then RenderNode(g, st.(index := st.index + 1))
      else if !known then Step(st, [Fault])
      else Step(st, [EndDialogue])
  }

  /** The document-level `keydown` listener reaches `onKeyPress` only while registered. */
  function KeyDown(g: Graph, st: State, gameState: string, target: Target, code: string): (r: Step)
    ensures !st.keysActive ==> r == Step(st, [])
    ensures forall e :: e in r.effects ==> !e.Load?
  {
    if st.keysActive then OnKeyPress(g, st, gameState, target, code) else Step(st, [])
  }

  /** A click on choice button `k`. Buttons from the last node end the dialogue
      for a missing target; those from `renderChoicesOrEnd` always call `loadScene`. */
  function ChooseChoice(g: Graph, st: State, k: nat, b: Build): (r: Step)
    ensures !(st.panel.Buttons? && k < |st.panel.buttons|) ==> r == Step(st, [])
    ensures st.panel.Buttons? && k < |st.panel.buttons| ==>
      var btn := st.panel.buttons[k];
      var t := btn.choice.nextScene;
      && (btn.origin == FromChoicesOrEnd || Truthy(t) ==> r == LoadScene(g, st, t, b))
      && (btn.origin == FromLastNode && !Truthy(t) ==> r == Step(st, [EndDialogue]))
      && (!Resolves(g, t) ==> r.st == st && Count(r.effects, EndDialogue) == 1)
  {
    if !(st.panel.Buttons? && k < |st.panel.buttons|) then Step(st, [])
    else
      var btn := st.panel.buttons[k];
      match btn.origin
      case FromLastNode =>
        if Truthy(btn.choice.nextScene) then LoadScene(g, st, btn.choice.nextScene, b) else Step(st, [EndDialogue])
      case FromChoicesOrEnd => LoadScene(g, st, btn.choice.nextScene, b)
  }

  /** The input answer's normal form; a missing answer normalises as the empty string. */
  function AnswerKey(answer: Option<string>): string
  {
    Normalize(if answer.Some? then answer.value else "")
  }

  /** The form's Confirm button: a match loads `nextOnCorrect`, a mismatch only shows feedback. */
  function Submit(g: Graph, st: State, text: string, b: Build): (r: Step)
    ensures !st.panel.InputForm? ==> r == Step(st, [])
    ensures st.panel.InputForm? && Normalize(text) == AnswerKey(st.panel.answer) ==>
      r == LoadScene(g, st, st.panel.next, b)
    ensures st.panel.InputForm? && Normalize(text) != AnswerKey(st.panel.answer) ==>
      r == Step(st, [RejectInput])
  {
    if !st.panel.InputForm? then Step(st, [])
    else if Normalize(text) == AnswerKey(st.panel.answer) then LoadScene(g, st, st.panel.next, b)
    else Step(st, [RejectInput])
  }

  /** The completion callback handed to `Minigames.run`: it captured the descriptor. */
  function MinigameDone(g: Graph, st: State, desc: MinigameDesc, b: Build): (r: Step)
    ensures Truthy(desc.onComplete) ==> r == LoadScene(g, st, desc.onComplete, b)
    ensures !Truthy(desc.onComplete) ==> r == Step(st, [EndDialogue])
  {
    if Truthy(desc.onComplete) then LoadScene(g, st, desc.onComplete, b) else Step(st, [EndDialogue])
  }

  /** `startStory(id)`: register the key listener, load the scene, switch the host
      view. A TypeError escaping `loadScene` ends the call before the view switch. */
  function StartStory(g: Graph, st: State, id: SceneId, b: Build): (r: Step)
    ensures r.st.keysActive
    ensures var l := LoadScene(g, st.(keysActive := true), Some(id), b);
      && (Fault !in l.effects ==> r.effects == l.effects + [EnterDialogueView])
      && (Fault in l.effects ==> r.effects == l.effects)
    ensures EnterDialogueView in r.effects <==> Fault !in r.effects
  {
    var r := LoadScene(g, st.(keysActive := true), Some(id), b);
    if Fault in r.effects then r
    else Step(r.st, r.effects + [EnterDialogueView])
  }

  /** `cleanup()`: unregister the key listener. */
  function Cleanup(st: State): (r: State)
    ensures !r.keysActive && r == st.(keysActive := false)
  {
    st.(keysActive := false)
  }

  // ---------------------------------------------------------------------------
  // Events and runs
  // ---------------------------------------------------------------------------

  datatype Event =
    | Click(target: Target)
    | KeyPress(gameState: string, keyTarget: Target, code: string)
    | Choose(k: nat)
    | SubmitText(text: string)
    | Completed(desc: MinigameDesc)
    | Start(id: SceneId)
    | Stop

  /** One event: only choices, submissions, completions and `startStory` can load a
      scene; keys are ignored until `startStory` registers the listener, and
      `cleanup` unregisters it. */
  function Handle(g: Graph, st: State, ev: Event, b: Build): (r: Step)
    ensures (ev.Click? || ev.KeyPress? || ev.Stop?) ==> forall e :: e in r.effects ==> !e.Load?
    ensures ev.KeyPress? && !st.keysActive ==> r == Step(st, [])
    ensures ev.Start? ==> r.st.keysActive && |r.effects| > 0
    ensures ev.Start? && Fault !in r.effects ==> r.effects[|r.effects| - 1] == EnterDialogueView
    ensures ev.Start? && Fault in r.effects ==> EnterDialogueView !in r.effects
    ensures ev.Stop? ==> !r.st.keysActive && r.effects == []
  {
    match ev
    case Click(t) => OnClick(g, st, t)
    case KeyPress(s, t, c) => KeyDown(g, st, s, t, c)
    case Choose(k) => ChooseChoice(g, st, k, b)
    case SubmitText(text) => Submit(g, st, text, b)
    case Completed(d) => MinigameDone(g, st, d, b)
    case Start(id) => StartStory(g, st, id, b)
    case Stop => Step(Cleanup(st), [])
  }

  /** Handles the events one after the other, concatenating their effects. */
  function Run(g: Graph, st: State, evs: seq<Event>, b: Build): (r: Step)
    ensures (forall i :: 0 <= i < |evs| ==> evs[i].Click? || evs[i].KeyPress? || evs[i].Stop?)
            ==> forall e :: e in r.effects ==> !e.Load?
    decreases |evs|
  {
    if |evs| == 0 then Step(st, [])
    else
      var r1 := Handle(g, st, evs[0], b);
      var r2 := Run(g, r1.st, evs[1..], b);
      Step(r2.st, r1.effects + r2.effects)
  }

  // ---------------------------------------------------------------------------
  // Properties
  // ---------------------------------------------------------------------------

  /** Rendering from a cursor without overlay keeps the invariant. */
  lemma RenderKeepsInv(g: Graph, st: State)
    requires Inv(g, st) && !st.overlay
    ensures Inv(g, RenderNode(g, st).st) && Inv(g, RenderChoicesOrEnd(g, st).st)
  {
  }

  /** Every handler keeps the invariant; in particular `index <= max(0, len - 1)` always holds. */
  lemma HandleKeepsInv(g: Graph, st: State, ev: Event, b: Build)
    requires Inv(g, st)
    ensures Inv(g, Handle(g, st, ev, b).st)
  {
    match ev {
      case Click(t) => ClickKeepsInv(g, st, t);
      case KeyPress(s, t, c) => KeyKeepsInv(g, st, s, t, c);
      case _ =>
    }
  }

  /** The advances a click or key press may make keep the invariant. */
  lemma AdvanceKeepsInv(g: Graph, st: State)
    requires Inv(g, st)
    ensures Inv(g, DismissOverlay(g, st).st)
    ensures !st.overlay && st.index + 1 < |st.nodes| ==> Inv(g, RenderNode(g, st.(index := st.index + 1)).st)
  {
    var st1 := st.(overlay := false);
    if st.index + 1 < |st.nodes| {
      RenderKeepsInv(g, st1.(index := st.index + 1));
      if !st.overlay {
        assert st1.(index := st.index + 1) == st.(index := st.index + 1);
      }
    } else {
      RenderKeepsInv(g, st1);
    }
  }

  lemma ClickKeepsInv(g: Graph, st: State, t: Target)
    requires Inv(g, st)
    ensures Inv(g, OnClick(g, st, t).st)
  {
    AdvanceKeepsInv(g, st);
  }

  lemma KeyKeepsInv(g: Graph, st: State, s: string, t: Target, c: string)
    requires Inv(g, st)
    ensures Inv(g, KeyDown(g, st, s, t, c).st)
  {
    AdvanceKeepsInv(g, st);
  }

  lemma {:induction false} RunKeepsInv(g: Graph, st: State, evs: seq<Event>, b: Build)
    requires Inv(g, st)
    ensures Inv(g, Run(g, st, evs, b).st)
    decreases |evs|
  {
    if |evs| > 0 {
      HandleKeepsInv(g, st, evs[0], b);
      RunKeepsInv(g, Handle(g, st, evs[0], b).st, evs[1..], b);
    }
  }

  /** An unknown scene id ends the dialogue exactly once and leaves the state as it was. */
  lemma UnknownSceneEndsOnce(g: Graph, st: State, id: SceneId, b: Build)
    requires id !in g
    ensures LoadScene(g, st, Some(id), b).st == st
    ensures Count(LoadScene(g, st, Some(id), b).effects, EndDialogue) == 1
  {
  }

  /** Entering `jukebox_solved` or `sign_solved` sets its flag, any other id leaves the store
      alone, and entering again changes nothing more. */
  lemma FlagTable(flags: set<Flag>, id: SceneId)
    ensures var fs := EnterFlags(Some(flags), id).0.value;
      && (JukeboxFixed in fs <==> JukeboxFixed in flags || id == "jukebox_solved")
      && (SignFixed in fs <==> SignFixed in flags || id == "sign_solved")
    ensures EnterFlags(EnterFlags(Some(flags), id).0, id).0 == EnterFlags(Some(flags), id).0
    ensures EnterFlags(None, id) == (None, [])
  {
  }

  /** Minigame first: a minigame scene runs its minigame and renders no node,
      whatever dialogue it carries. */
  lemma MinigameDispatchedFirst(g: Graph, st: State, id: SceneId, b: Build)
    requires id in g && g[id].minigame.Some?
    ensures var r := LoadScene(g, st, Some(id), b);
      && RunMinigame(g[id].minigame.value) in r.effects
      && forall e :: e in r.effects ==> !e.ShowNode? && !e.ShowSystem? && !e.ShowInput? && e != EndDialogue
  {
  }

  /** Then input puzzle: such a scene attaches its form and renders no node. */
  lemma InputDispatchedSecond(g: Graph, st: State, id: SceneId)
    requires id in g && IsInputScene(g[id])
    ensures var r := LoadScene(g, st, Some(id), Repaired);
      && r.st.panel == InputForm(g[id].inputAnswer, g[id].nextOnCorrect)
      && forall e :: e in r.effects ==> !e.ShowNode? && !e.ShowSystem? && !e.RunMinigame? && e != EndDialogue
  {
  }

  /** Only otherwise is the first node rendered. */
  lemma DialogueDispatchedLast(g: Graph, st: State, id: SceneId, b: Build)
    requires id in g && g[id].minigame.None? && !IsInputScene(g[id]) && |g[id].dialogue| > 0
    ensures var r := LoadScene(g, st, Some(id), b);
      && (ShowNode(0) in r.effects || ShowSystem(0) in r.effects)
      && forall e :: e in r.effects ==> !e.RunMinigame? && !e.ShowInput?
  {
  }

  /** A scene with no dialogue goes through `renderChoicesOrEnd` and then `loadScene`
      ends the dialogue again: two `endDialogue` calls without choices, and with
      choices the buttons are attached yet the dialogue is ended anyway. */
  lemma EmptyDialogueEndsTwice(g: Graph, st: State, id: SceneId, b: Build)
    requires id in g && g[id].minigame.None? && !IsInputScene(g[id]) && |g[id].dialogue| == 0
    ensures var r := LoadScene(g, st, Some(id), b);
      && (|g[id].choices| == 0 ==> Count(r.effects, EndDialogue) == 2)
      && (|g[id].choices| > 0 ==> Count(r.effects, EndDialogue) == 1 && r.st.panel.Buttons?)
  {
    var st1 := st.(sceneId := Some(id), nodes := [], index := 0, overlay := false,
                   flags := EnterFlags(st.flags, id).0);
    assert CurrentChoices(g, st1) == g[id].choices;
  }

  /** On the last node with no overlay, an advance ends the dialogue when the scene
      has no choices and otherwise does nothing; click and key agree. */
  lemma AdvanceOnLastNode(g: Graph, st: State, gameState: string, code: string)
    requires Inv(g, st) && st.sceneId.Some? && !st.overlay && st.index + 1 >= |st.nodes|
    requires KeyAdvances(gameState, Elsewhere, code)
    ensures |CurrentChoices(g, st)| == 0 ==> OnClick(g, st, Elsewhere) == Step(st, [EndDialogue])
    ensures |CurrentChoices(g, st)| > 0 ==> OnClick(g, st, Elsewhere) == Step(st, [])
    ensures OnKeyPress(g, st, gameState, Elsewhere, code) == OnClick(g, st, Elsewhere)
  {
  }

  /** Before the last node an advance moves to the next node and never ends the dialogue
      nor offers choices; click and key agree. */
  lemma AdvanceBeforeLastNode(g: Graph, st: State, gameState: string, code: string)
    requires Inv(g, st) && st.index + 1 < |st.nodes|
    requires KeyAdvances(gameState, Elsewhere, code)
    ensures var r := OnClick(g, st, Elsewhere);
      && r.st.index == st.index + 1
      && (st.index + 2 < |st.nodes| ==> r.st.panel == Cleared)
      && r.effects == [if st.nodes[st.index + 1].speaker == SystemSpeaker then ShowSystem(st.index + 1) else ShowNode(st.index + 1)]
    ensures OnKeyPress(g, st, gameState, Elsewhere, code) == OnClick(g, st, Elsewhere)
  {
  }

  /** Dismissing an overlay on the last node shows the choices, or ends the dialogue when there are none. */
  lemma DismissOnLastNode(g: Graph, st: State)
    requires Inv(g, st) && st.overlay && st.index + 1 == |st.nodes|
    ensures var r := OnClick(g, st, Elsewhere);
      && !r.st.overlay
      && (|CurrentChoices(g, st)| > 0 <==> r.st.panel.Buttons?)
      && (|CurrentChoices(g, st)| == 0 <==> r.effects == [EndDialogue])
  {
  }

  /** The input puzzle accepts exactly the submissions equal to the answer after
      trimming and lower-casing both; a rejection changes nothing and the form stays,
      so the player may submit again. */
  lemma InputPuzzleDecision(g: Graph, st: State, text: string, b: Build)
    requires st.panel.InputForm?
    ensures var answer := if st.panel.answer.Some? then st.panel.answer.value else "";
      var r := Submit(g, st, text, b);
      && (Trim(Lower(text)) == Trim(Lower(answer)) ==> r.effects[0] == Load(st.panel.next))
      && (Trim(Lower(text)) != Trim(Lower(answer)) ==> r.st == st && r.effects == [RejectInput])
  {
    var answer := if st.panel.answer.Some? then st.panel.answer.value else "";
    NormalizeIsTrimOfLower(text);
    NormalizeIsTrimOfLower(answer);
  }

  /** A completion with a target starts with loading that target. */
  lemma CompletionLoadsFirst(g: Graph, st: State, desc: MinigameDesc, b: Build)
    requires Truthy(desc.onComplete)
    ensures var e := Handle(g, st, Completed(desc), b).effects;
      |e| > 0 && e[0] == Load(desc.onComplete)
  {
    assert Handle(g, st, Completed(desc), b) == LoadScene(g, st, desc.onComplete, b);
  }

  /** Two sequences that each start with `x` hold `x` at least twice together. */
  lemma CountTwoHeads<T>(a: seq<T>, b: seq<T>, x: T)
    requires |a| > 0 && a[0] == x && |b| > 0 && b[0] == x
    ensures Count(a + b, x) >= 2
  {
    assert a == [x] + a[1..] && b == [x] + b[1..];
    assert multiset(a + b) == multiset(a) + multiset(b);
  }

  /** Minigame completion loads `onComplete` when present and ends the dialogue
      otherwise. The callback is not guarded: a second call loads the scene again. */
  lemma CompletionIsNotGuarded(g: Graph, st: State, desc: MinigameDesc, b: Build)
    requires Truthy(desc.onComplete)
    ensures Count(Run(g, st, [Completed(desc), Completed(desc)], b).effects, Load(desc.onComplete)) >= 2
  {
    var e1 := Handle(g, st, Completed(desc), b);
    var e2 := Handle(g, e1.st, Completed(desc), b);
    RunTwo(g, st, Completed(desc), Completed(desc), b);
    CompletionLoadsFirst(g, st, desc, b);
    CompletionLoadsFirst(g, e1.st, desc, b);
    CountTwoHeads(e1.effects, e2.effects, Load(desc.onComplete));
  }

  /** Two events in a row. */
  lemma RunTwo(g: Graph, st: State, a: Event, c: Event, b: Build)
    ensures var r1 := Handle(g, st, a, b);
      var r2 := Handle(g, r1.st, c, b);
      Run(g, st, [a, c], b) == Step(r2.st, r1.effects + r2.effects)
  {
    var r1 := Handle(g, st, a, b);
    var r2 := Handle(g, r1.st, c, b);
    assert [a, c][1..] == [c];
    assert [c][1..] == [];
    RunCons(g, st, [a, c], b);
    RunCons(g, r1.st, [c], b);
    assert r2.effects + [] == r2.effects;
  }

  // ---------------------------------------------------------------------------
  // Walking through a scene with repeated advances
  // ---------------------------------------------------------------------------

  /** What rendering node `k` reports: an overlay for a System node, a line otherwise. */
  function Rendered(nodes: seq<Node>, k: nat): (e: Effect)
    requires k < |nodes|
    ensures e == ShowNode(k) || e == ShowSystem(k)
  {
    if nodes[k].speaker == SystemSpeaker then ShowSystem(k) else ShowNode(k)
  }

  /** The reports of rendering nodes `lo .. hi-1`, in order. */
  function RenderedRange(nodes: seq<Node>, lo: nat, hi: nat): (r: seq<Effect>)
    requires lo <= hi <= |nodes|
    ensures |r| == hi - lo
    ensures forall j :: 0 <= j < |r| ==> r[j] == Rendered(nodes, lo + j)
  {
    seq(hi - lo, j requires 0 <= j < hi - lo => Rendered(nodes, lo + j))
  }

  lemma RenderedRangeCons(nodes: seq<Node>, lo: nat, hi: nat)
    requires lo < hi <= |nodes|
    ensures RenderedRange(nodes, lo, hi) == [Rendered(nodes, lo)] + RenderedRange(nodes, lo + 1, hi)
    ensures EndDialogue !in RenderedRange(nodes, lo, hi)
  {
  }

  /** `n` plain clicks on the dialogue view. */
  function Clicks(n: nat): (evs: seq<Event>)
    ensures |evs| == n && forall i :: 0 <= i < n ==> evs[i] == Click(Elsewhere)
  {
    seq(n, i => Click(Elsewhere))
  }

  /** One event followed by more. */
  lemma RunCons(g: Graph, st: State, evs: seq<Event>, b: Build)
    requires |evs| > 0
    ensures var r1 := Handle(g, st, evs[0], b);
      var r2 := Run(g, r1.st, evs[1..], b);
      Run(g, st, evs, b) == Step(r2.st, r1.effects + r2.effects)
  {
  }

  /** A click before the last node, summarised. */
  lemma ClickAdvances(g: Graph, st: State, b: Build)
    requires Inv(g, st) && st.index + 1 < |st.nodes|
    ensures var r := Handle(g, st, Click(Elsewhere), b);
      && Inv(g, r.st) && r.st.index == st.index + 1
      && r.st.sceneId == st.sceneId && r.st.nodes == st.nodes
      && r.effects == [Rendered(st.nodes, st.index + 1)]
      && (st.index + 2 < |st.nodes| ==> r.st.panel == Cleared)
  {
    AdvanceBeforeLastNode(g, st, "dialogue", "Space");
    HandleKeepsInv(g, st, Click(Elsewhere), b);
  }

  /** `r` is what `n` clicks from node `i` of `st`'s scene leave: the same scene at
      node `i + n`, nodes `i+1 .. i+n` rendered in order and nothing else, and the
      panel still cleared when more than one node remains. */
  predicate Walked(g: Graph, st: State, n: nat, r: Step)
  {
    && Inv(g, r.st) && r.st.index == st.index + n
    && r.st.sceneId == st.sceneId && r.st.nodes == st.nodes
    && st.index + n + 1 <= |st.nodes|
    && r.effects == RenderedRange(st.nodes, st.index + 1, st.index + n + 1)
    && (n > 0 && st.index + n + 1 < |st.nodes| ==> r.st.panel == Cleared)
  }

  /** The inductive step of `ClicksWalkNodes`: the first click's step `r1` followed
      by the walk `rest` from the next node. */
  lemma WalkStep(g: Graph, st: State, n: nat, r1: Step, rest: Step)
    requires Inv(g, st) && 0 < n && st.index + n < |st.nodes|
    requires r1.st.index == st.index + 1 && r1.st.sceneId == st.sceneId && r1.st.nodes == st.nodes
    requires r1.effects == [Rendered(st.nodes, st.index + 1)]
    requires n == 1 ==> rest.st == r1.st && (st.index + 2 < |st.nodes| ==> r1.st.panel == Cleared)
    requires Walked(g, r1.st, n - 1, rest)
    ensures Walked(g, st, n, Step(rest.st, r1.effects + rest.effects))
  {
    RenderedRangeCons(st.nodes, st.index + 1, st.index + n + 1);
  }

  /** From node `i`, `n` clicks that stay within the scene render exactly nodes
      `i+1 .. i+n`, in order, and nothing else: in particular they never end the
      dialogue, and never offer choices before the last node. */
  lemma {:induction false} ClicksWalkNodes(g: Graph, st: State, n: nat, b: Build)
    requires Inv(g, st) && st.index + n < |st.nodes|
    ensures Walked(g, st, n, Run(g, st, Clicks(n), b))
    decreases n
  {
    if n > 0 {
      var evs := Clicks(n);
      var r1 := Handle(g, st, Click(Elsewhere), b);
      ClickAdvances(g, st, b);
      ClicksWalkNodes(g, r1.st, n - 1, b);
      var rest := Run(g, r1.st, Clicks(n - 1), b);
      assert evs[0] == Click(Elsewhere) && evs[1..] == Clicks(n - 1);
      RunCons(g, st, evs, b);
      if n == 1 {
        assert Clicks(0) == [];
      }
      WalkStep(g, st, n, r1, rest);
    } else {
      assert Clicks(0) == [];
      assert RenderedRange(st.nodes, st.index + 1, st.index + 1) == [];
    }
  }

  /** In a scene of `N > 0` nodes without choices, `N - 1` clicks after loading
      render exactly nodes `1 .. N-1` without ending the dialogue, and the `N`-th click
      ends it exactly once. */
  lemma SequentialRender(g: Graph, st: State, id: SceneId, b: Build)
    requires id in g && g[id].minigame.None? && !IsInputScene(g[id])
    requires |g[id].dialogue| > 0 && |g[id].choices| == 0
    ensures var loaded := LoadScene(g, st, Some(id), b).st;
      var n := |g[id].dialogue|;
      var walk := Run(g, loaded, Clicks(n - 1), b);
      && walk.effects == RenderedRange(g[id].dialogue, 1, n)
      && EndDialogue !in walk.effects
      && Count(OnClick(g, walk.st, Elsewhere).effects, EndDialogue) == 1
  {
    var loaded := LoadScene(g, st, Some(id), b).st;
    var n := |g[id].dialogue|;
    ClicksWalkNodes(g, loaded, n - 1, b);
    if n > 1 {
      RenderedRangeCons(g[id].dialogue, 1, n);
    }
    var w := Run(g, loaded, Clicks(n - 1), b).st;
    assert CurrentChoices(g, w) == [];
    if w.overlay {
      DismissOnLastNode(g, w);
    } else {
      AdvanceOnLastNode(g, w, "dialogue", "Space");
    }
  }

  /** Scenario: a three-node scene of character lines with a single choice. Two
      advances reach the last node, whose render attaches the choice; choosing it
      loads its target. */
  lemma ThreeNodeSceneOffersChoice(g: Graph, st: State, id: SceneId, next: SceneId, b: Build)
    requires id in g && g[id].minigame.None? && !IsInputScene(g[id])
    requires |g[id].dialogue| == 3
    requires forall i :: 0 <= i < 3 ==> g[id].dialogue[i].speaker != SystemSpeaker
    requires g[id].choices == [Choice("Next", Some(next))] && |next| > 0
    ensures var loaded := LoadScene(g, st, Some(id), b).st;
      var walk := Run(g, loaded, Clicks(2), b);
      && walk.st.index == 2
      && walk.st.panel == Buttons([Button(Choice("Next", Some(next)), FromLastNode)])
      && ChooseChoice(g, walk.st, 0, b) == LoadScene(g, walk.st, Some(next), b)
  {
    var loaded := LoadScene(g, st, Some(id), b).st;
    var c1 := OnClick(g, loaded, Elsewhere);
    var c2 := OnClick(g, c1.st, Elsewhere);
    assert Clicks(2) == [Click(Elsewhere), Click(Elsewhere)];
    assert Run(g, loaded, Clicks(2), b).st == c2.st by {
      assert Clicks(2)[1..] == [Click(Elsewhere)];
    }
    assert CurrentChoices(g, c1.st) == g[id].choices;
  }

  // ---------------------------------------------------------------------------
  // The input puzzle as written
  // ---------------------------------------------------------------------------

  /** As written, entering an input scene moves the cursor there, reports the
      TypeError, and attaches no form: the panel is whatever was on screen. */
  lemma InputFaultsAsWritten(g: Graph, st: State, id: SceneId)
    requires id in g && IsInputScene(g[id])
    ensures var r := LoadScene(g, st, Some(id), AsWritten);
      && r.st.sceneId == Some(id) && r.st.index == 0 && r.st.panel == st.panel
      && Fault in r.effects
      && forall e :: e in r.effects ==> !e.ShowInput? && !e.ShowNode? && !e.ShowSystem? && !e.RunMinigame?
  {
  }

  /** As written, a choice leading to an input scene leaves its own button on the
      panel; choosing it again re-enters the scene and faults again, with the same
      state and calls: the player cannot get past the puzzle. */
  lemma InputSceneTrapsChoiceAsWritten(g: Graph, st: State, k: nat)
    requires st.panel.Buttons? && k < |st.panel.buttons|
    requires Resolves(g, st.panel.buttons[k].choice.nextScene) && Truthy(st.panel.buttons[k].choice.nextScene)
    requires IsInputScene(g[st.panel.buttons[k].choice.nextScene.value])
    ensures var c := ChooseChoice(g, st, k, AsWritten);
      && c.st.sceneId == st.panel.buttons[k].choice.nextScene
      && c.st.panel == st.panel
      && Fault in c.effects
      && (forall e :: e in c.effects ==> !e.ShowInput?)
      && ChooseChoice(g, c.st, k, AsWritten) == c
  {
    var t := st.panel.buttons[k].choice.nextScene;
    var c := ChooseChoice(g, st, k, AsWritten);
    assert c == LoadScene(g, st, t, AsWritten);
    InputFaultsAsWritten(g, st, t.value);
    FlagTable(if st.flags.Some? then st.flags.value else {}, t.value);
    assert ChooseChoice(g, c.st, k, AsWritten) == LoadScene(g, c.st, t, AsWritten);
  }

  /** The panel holds no answer form and no button leading to `t`. */
  predicate PanelAvoids(p: Panel, t: SceneId)
  {
    && !p.InputForm?
    && (p.Buttons? ==> forall i :: 0 <= i < |p.buttons| ==> p.buttons[i].choice.nextScene != Some(t))
  }

  /** An event that does not itself name `t`: not `startStory(t)`, not a completion leading to `t`. */
  predicate EventAvoids(ev: Event, t: SceneId)
  {
    ev != Start(t) && (ev.Completed? ==> ev.desc.onComplete != Some(t))
  }

  lemma RenderAvoids(g: Graph, st: State, t: SceneId)
    requires NoEdgeInto(g, t)
    ensures PanelAvoids(RenderNode(g, st).st.panel, t)
    ensures PanelAvoids(RenderChoicesOrEnd(g, st).st.panel, t)
  {
    if st.sceneId.Some? && st.sceneId.value in g {
      assert !LeadsTo(g[st.sceneId.value], t);
    }
  }

  lemma LoadAvoids(g: Graph, st: State, target: Option<SceneId>, t: SceneId)
    requires NoEdgeInto(g, t) && PanelAvoids(st.panel, t) && target != Some(t)
    ensures var r := LoadScene(g, st, target, AsWritten);
      PanelAvoids(r.st.panel, t) && Load(Some(t)) !in r.effects
  {
    if Resolves(g, target) {
      var id := target.value;
      var st1 := st.(sceneId := target, nodes := g[id].dialogue, index := 0, overlay := false,
                     flags := EnterFlags(st.flags, id).0);
      RenderAvoids(g, st1, t);
    }
  }

  /** Removing the overlay renders only within the current scene. */
  lemma DismissAvoids(g: Graph, st: State, t: SceneId)
    requires NoEdgeInto(g, t)
    ensures PanelAvoids(DismissOverlay(g, st).st.panel, t)
  {
    var st1 := st.(overlay := false);
    if st.index + 1 < |st.nodes| {
      RenderAvoids(g, st1.(index := st.index + 1), t);
    } else {
      RenderAvoids(g, st1, t);
    }
  }

  lemma ClickAvoids(g: Graph, st: State, x: Target, t: SceneId)
    requires NoEdgeInto(g, t) && PanelAvoids(st.panel, t)
    ensures PanelAvoids(OnClick(g, st, x).st.panel, t)
  {
    DismissAvoids(g, st, t);
    RenderAvoids(g, st.(index := st.index + 1), t);
  }

  lemma KeyAvoids(g: Graph, st: State, s: string, x: Target, c: string, t: SceneId)
    requires NoEdgeInto(g, t) && PanelAvoids(st.panel, t)
    ensures PanelAvoids(KeyDown(g, st, s, x, c).st.panel, t)
  {
    DismissAvoids(g, st, t);
    RenderAvoids(g, st.(index := st.index + 1), t);
  }

  /** One event of the program as written keeps the panel clear of `t` and does not load `t`. */
  lemma HandleAvoids(g: Graph, st: State, ev: Event, t: SceneId)
    requires NoEdgeInto(g, t) && PanelAvoids(st.panel, t) && EventAvoids(ev, t)
    ensures var r := Handle(g, st, ev, AsWritten);
      PanelAvoids(r.st.panel, t) && Load(Some(t)) !in r.effects
  {
    match ev {
      case Click(x) =>
        ClickAvoids(g, st, x, t);
      case KeyPress(s, x, c) =>
        KeyAvoids(g, st, s, x, c, t);
      case Choose(k) =>
        if st.panel.Buttons? && k < |st.panel.buttons| {
          LoadAvoids(g, st, st.panel.buttons[k].choice.nextScene, t);
        }
      case SubmitText(_) =>
      case Completed(d) =>
        if Truthy(d.onComplete) {
          LoadAvoids(g, st, d.onComplete, t);
        }
      case Start(id) =>
        LoadAvoids(g, st.(keysActive := true), Some(id), t);
      case Stop =>
    }
  }

  /** As written, when nothing but an input puzzle leads to `t`, no run of events
      ever loads `t`: the form that would lead there is never attached. */
  lemma {:induction false} AsWrittenNeverLoads(g: Graph, st: State, evs: seq<Event>, t: SceneId)
    requires NoEdgeInto(g, t) && PanelAvoids(st.panel, t)
    requires forall i :: 0 <= i < |evs| ==> EventAvoids(evs[i], t)
    ensures Load(Some(t)) !in Run(g, st, evs, AsWritten).effects
    decreases |evs|
  {
    if |evs| > 0 {
      var r1 := Handle(g, st, evs[0], AsWritten);
      HandleAvoids(g, st, evs[0], t);
      AsWrittenNeverLoads(g, r1.st, evs[1..], t);
      var r2 := Run(g, r1.st, evs[1..], AsWritten);
      assert Run(g, st, evs, AsWritten).effects == r1.effects + r2.effects;
    }
  }

  // ---------------------------------------------------------------------------
  // Presentation lookups
  // ---------------------------------------------------------------------------

  /** The first character, in table order, whose lower-cased display name is `key` (`Array.find`). */
  function FindByName(chars: seq<(string, Character)>, key: string): (r: Option<Character>)
    ensures r.None? <==> forall i :: 0 <= i < |chars| ==> Lower(chars[i].1.name) != key
    ensures r.Some? ==> exists i :: 0 <= i < |chars| && chars[i].1 == r.value
    ensures forall i :: (0 <= i < |chars| && Lower(chars[i].1.name) == key
                         && forall j :: 0 <= j < i ==> Lower(chars[j].1.name) != key)
                        ==> r == Some(chars[i].1)
    decreases |chars|
  {
    if |chars| == 0 then None
    else if Lower(chars[0].1.name) == key then Some(chars[0].1)
    else
      var rest := FindByName(chars[1..], key);
      assert forall i :: 1 <= i < |chars| ==> chars[1..][i - 1] == chars[i];
      assert rest.Some? ==> exists i :: 0 <= i < |chars| && chars[i].1 == rest.value by {
        if rest.Some? {
          var i :| 0 <= i < |chars[1..]| && chars[1..][i].1 == rest.value;
          assert chars[i + 1].1 == rest.value;
        }
      }
      rest
  }

  /** The character the speaker names: the first whose lower-cased display name is
      `key`, else the one stored under the property `key`. */
  function FindCharacter(chars: seq<(string, Character)>, key: string): (r: Option<Character>)
    ensures r.Some? ==> exists i :: 0 <= i < |chars| && chars[i].1 == r.value
    ensures forall i :: (0 <= i < |chars| && Lower(chars[i].1.name) == key
                         && forall j :: 0 <= j < i ==> Lower(chars[j].1.name) != key)
                        ==> r == Some(chars[i].1)
    ensures (forall i :: 0 <= i < |chars| ==> Lower(chars[i].1.name) != key) ==> r == Lookup(chars, key)
  {
    var byName := FindByName(chars, key);
    if byName.Some? then
      byName
    else
      var c := Lookup(chars, key);
      assert c.Some? ==> exists i :: 0 <= i < |chars| && chars[i].1 == c.value by {
        if c.Some? {
          var i :| 0 <= i < |chars| && chars[i] == (key, c.value);
        }
      }
      c
  }

  /** `getPortrait(speaker, emotion)`: the pose image for the emotion when the
      character has one, else its `speak`, else its `normal`, else its first image. */
  function GetPortrait(chars: seq<(string, Character)>, speaker: Option<string>, emotion: Option<string>): (r: Option<string>)
    ensures !Truthy(speaker) ==> r.None?
    ensures Truthy(speaker) && FindCharacter(chars, Normalize(speaker.value)).None? ==> r.None?
    ensures r.Some? ==> (|r.value| > 0 && Truthy(speaker)
                         && exists k :: (k, r.value) in FindCharacter(chars, Normalize(speaker.value)).value.images)
  {
    if !Truthy(speaker) then None
    else
      match FindCharacter(chars, Normalize(speaker.value))
      case None => None
      case Some(c) => PickImage(c.images, emotion)
  }

  /** The image `getPortrait` picks from one character's table: the emotion's own
      image when non-empty, else `speak`, else `normal`, else the first entry. */
  function PickImage(images: seq<(string, string)>, emotion: Option<string>): (r: Option<string>)
    ensures r.Some? ==> |r.value| > 0 && exists k :: (k, r.value) in images
    ensures Truthy(emotion) && Truthy(Lookup(images, emotion.value)) ==> r == Lookup(images, emotion.value)
    ensures !(Truthy(emotion) && Truthy(Lookup(images, emotion.value)))
      ==> r == (if Truthy(Lookup(images, "speak")) then Lookup(images, "speak")
                else if Truthy(Lookup(images, "normal")) then Lookup(images, "normal")
                else if |images| > 0 && |images[0].1| > 0 then Some(images[0].1)
                else None)
  {
    var byEmotion := if emotion.Some? then Lookup(images, emotion.value) else None;
    if Truthy(emotion) && Truthy(byEmotion) then byEmotion
    else if Truthy(Lookup(images, "speak")) then Lookup(images, "speak")
    else if Truthy(Lookup(images, "normal")) then Lookup(images, "normal")
    else if |images| > 0 && |images[0].1| > 0 then
      assert (images[0].0, images[0].1) in images;
      Some(images[0].1)
    else None
  }

  /** A speaker no character answers to has no portrait; a found speaker's portrait
      follows the fallback order over its own image table: the emotion's image, then
      `speak`, then `normal`, then the first entry, and an empty image at any step
      counts as missing. */
  lemma PortraitChoice(chars: seq<(string, Character)>, speaker: string, emotion: Option<string>)
    ensures |speaker| > 0 ==>
      var found := FindCharacter(chars, Normalize(speaker));
      var r := GetPortrait(chars, Some(speaker), emotion);
      && (found.None? ==> r.None?)
      && (found.Some? ==>
            var c := found.value;
            var own := Truthy(emotion) && Truthy(Lookup(c.images, emotion.value));
            && (r.Some? ==> exists k :: (k, r.value) in c.images)
            && (own ==> r == Lookup(c.images, emotion.value))
            && (!own && Truthy(Lookup(c.images, "speak")) ==> r == Lookup(c.images, "speak"))
            && ((!own && !Truthy(Lookup(c.images, "speak")) && Truthy(Lookup(c.images, "normal")))
                ==> r == Lookup(c.images, "normal"))
            && ((!own && !Truthy(Lookup(c.images, "speak")) && !Truthy(Lookup(c.images, "normal")))
                ==> r == (if |c.images| > 0 && |c.images[0].1| > 0 then Some(c.images[0].1) else None)))
  {
  }

  /** The CSS class `applyEffects` adds for an effect tag, if any. */
  function EffectClass(tag: string): (r: Option<string>)
    ensures r.Some? <==> tag in {"glitch", "flicker", "scan"}
  {
    if tag == "glitch" then Some("effect-glitch")
    else if tag == "flicker" then Some("effect-flash")
    else if tag == "scan" then Some("effect-scan")
    else None
  }

  /** The effect classes on the view right after `applyEffects(tags)`: previous ones
      are removed, then one class per recognised tag is added. */
  function ApplyEffects(tags: seq<string>): (classes: set<string>)
    ensures "effect-glitch" in classes <==> "glitch" in tags
    ensures "effect-flash" in classes <==> "flicker" in tags
    ensures "effect-scan" in classes <==> "scan" in tags
    ensures classes <= {"effect-glitch", "effect-flash", "effect-scan"}
  {
    var classes := set i | 0 <= i < |tags| && EffectClass(tags[i]).Some? :: EffectClass(tags[i]).value;
    assert forall tag :: tag in tags && EffectClass(tag).Some? ==> EffectClass(tag).value in classes by {
      forall tag | tag in tags && EffectClass(tag).Some? ensures EffectClass(tag).value in classes {
        var i :| 0 <= i < |tags| && tags[i] == tag;
      }
    }
    classes
  }
}
