/** The host side of `Game.js` that the interpreter talks to: the view switch, the
    world-click gate with Kael's hit rectangle, and the clamp that keeps Synthya on
    the bar. Canvas geometry is real-valued, as in the browser.

    The host defines neither `endDialogue` nor a flag store, so a call of
    `game.endDialogue()` throws a TypeError that aborts the rest of the handler. */
module Host {
  import opened Common
  import opened SceneGraph
  import Dialogue

  /** The keys of `this.views`. */
  const Views: set<string> := {"menu", "character-select", "world", "dialogue", "combat"}

  /** The scene the click on Kael starts. */
  const KaelScene: SceneId := "broken_mug_loop_start"

  datatype Rect = Rect(x: real, y: real, w: real, h: real)

  datatype Player = Player(x: real, y: real, targetX: real, targetY: real, w: real, h: real)

  /** `gameState`, the one view left visible (if any), the player, and the interpreter. */
  datatype Host = Host(gameState: string, shown: Option<string>, player: Player, dlg: Dialogue.State)

  /** The view on screen, if any, is the one `gameState` names, and `gameState` is a known view. */
  predicate Consistent(h: Host)
  {
    h.gameState in Views && (h.shown.Some? ==> h.shown.value == h.gameState)
  }

  /** `changeState(s)`: every view is hidden; a known view is then shown and becomes the state. */
  function ChangeState(h: Host, s: string): (r: Host)
    ensures r.player == h.player && r.dlg == h.dlg
    ensures s in Views ==> r.gameState == s && r.shown == Some(s)
    ensures s !in Views ==> r.gameState == h.gameState && r.shown.None?
  {
    if s in Views then h.(gameState := s, shown := Some(s)) else h.(shown := None)
  }

  /** The view switch keeps the host consistent, is idempotent, and the last known view wins. */
  lemma ChangeStateProperties(h: Host, a: string, b: string)
    requires Consistent(h)
    ensures Consistent(ChangeState(h, a))
    ensures ChangeState(ChangeState(h, a), a) == ChangeState(h, a)
    ensures ChangeState(ChangeState(h, a), b).gameState ==
      if b in Views then b else if a in Views then a else h.gameState
  {
  }

  /** `pointInKael(x, y)`: containment in Kael's rectangle, edges included. */
  predicate PointInKael(k: Rect, x: real, y: real)
  {
    x >= k.x && x <= k.x + k.w && y >= k.y && y <= k.y + k.h
  }

  /** All four corners hit Kael, and a point just past any edge misses him. */
  lemma KaelEdgesInclusive(k: Rect, eps: real)
    requires k.w >= 0.0 && k.h >= 0.0 && eps > 0.0
    ensures PointInKael(k, k.x, k.y) && PointInKael(k, k.x + k.w, k.y)
    ensures PointInKael(k, k.x, k.y + k.h) && PointInKael(k, k.x + k.w, k.y + k.h)
    ensures !PointInKael(k, k.x - eps, k.y) && !PointInKael(k, k.x + k.w + eps, k.y)
    ensures !PointInKael(k, k.x, k.y - eps) && !PointInKael(k, k.x, k.y + k.h + eps)
  {
  }

  /** The two clamping statements of `updateWorld`, left bound first, then right. */
  function ClampX(x: real, left: real, right: real): (r: real)
    ensures r <= right
    ensures left <= right ==> left <= r
    ensures left <= x <= right ==> r == x
    ensures left > right ==> r == right
  {
    var x1 := if x < left then left else x;
    if x1 > right then right else x1
  }

  /** Clamping twice is clamping once. */
  lemma ClampIdempotent(x: real, left: real, right: real)
    ensures ClampX(ClampX(x, left, right), left, right) == ClampX(x, left, right)
  {
  }

  /** The bounds of the bar Synthya walks on: ten pixels in from each end, allowing for her width. */
  function ClampToBar(p: Player, bar: Rect): (r: Player)
    ensures r.(x := p.x) == p
    ensures r.x + p.w <= bar.x + bar.w - 10.0
    ensures bar.w >= p.w + 20.0 ==> bar.x + 10.0 <= r.x
    ensures bar.x + 10.0 <= p.x && p.x + p.w <= bar.x + bar.w - 10.0 ==> r == p
  {
    p.(x := ClampX(p.x, bar.x + 10.0, bar.x + bar.w - p.w - 10.0))
  }

  /** What the host does with the interpreter's calls, in order: entering the dialogue
      view switches to it; `endDialogue` is missing and throws, and nothing after it
      runs, as after any other TypeError. The flag is whether a TypeError escaped. */
  function Apply(h: Host, effects: seq<Dialogue.Effect>): (r: (Host, bool))
    ensures r.0.player == h.player && r.0.dlg == h.dlg
    ensures r.1 <==> Dialogue.EndDialogue in effects || Dialogue.Fault in effects
    ensures Consistent(h) ==> Consistent(r.0)
    decreases |effects|
  {
    if |effects| == 0 then (h, false)
    else if effects[0] == Dialogue.EndDialogue || effects[0] == Dialogue.Fault then (h, true)
    else
      var h1 := if effects[0] == Dialogue.EnterDialogueView then ChangeState(h, "dialogue") else h;
      var r := Apply(h1, effects[1..]);
      assert effects == [effects[0]] + effects[1..];
      r
  }

  /** `handleWorldClick`: ignored outside the world view; otherwise Synthya walks
      towards the click along the bar, and a click on Kael starts his scene. */
  function HandleWorldClick(g: Graph, h: Host, bar: Rect, kael: Rect, cx: real, cy: real, b: Dialogue.Build): (r: (Host, seq<Dialogue.Effect>))
    ensures h.gameState != "world" ==> r == (h, [])
    ensures h.gameState == "world" ==>
      && r.0.player == h.player.(targetX := cx, targetY := bar.y + bar.h - h.player.h)
      && (PointInKael(kael, cx, cy) <==> |r.1| > 0)
  {
    if h.gameState != "world" then (h, [])
    else
      var h1 := h.(player := h.player.(targetX := cx, targetY := bar.y + bar.h - h.player.h));
      if PointInKael(kael, cx, cy) then
        var s := Dialogue.StartStory(g, h1.dlg, KaelScene, b);
        var a := Apply(h1.(dlg := s.st), s.effects);
        (a.0, s.effects)
      else (h1, [])
  }

  /** A click on Kael in a story without his scene: the interpreter registers its
      key listener and ends the dialogue through the not-found path; the missing
      `endDialogue` aborts the handler, so the host never switches to the dialogue view. */
  lemma KaelClickWithoutScene(g: Graph, h: Host, bar: Rect, kael: Rect, cx: real, cy: real, b: Dialogue.Build)
    requires KaelScene !in g && h.gameState == "world" && PointInKael(kael, cx, cy)
    ensures var r := HandleWorldClick(g, h, bar, kael, cx, cy, b);
      && r.1 == [Dialogue.Load(Some(KaelScene)), Dialogue.EndDialogue, Dialogue.EnterDialogueView]
      && r.0.gameState == "world" && r.0.shown == h.shown
      && r.0.dlg == h.dlg.(keysActive := true)
  {
    var h1 := h.(player := h.player.(targetX := cx, targetY := bar.y + bar.h - h.player.h));
    var s := Dialogue.StartStory(g, h1.dlg, KaelScene, b);
    var es := [Dialogue.Load(Some(KaelScene)), Dialogue.EndDialogue, Dialogue.EnterDialogueView];
    assert s.effects == es;
    assert es[1..] == [Dialogue.EndDialogue, Dialogue.EnterDialogueView];
    assert Apply(h1.(dlg := s.st), es) == Apply(h1.(dlg := s.st), es[1..]);
  }

  /** Clicks outside the world view change nothing, whatever they hit. */
  lemma ClicksIgnoredOutsideWorld(g: Graph, h: Host, bar: Rect, kael: Rect, cx: real, cy: real, b: Dialogue.Build)
    requires Consistent(h) && h.gameState != "world"
    ensures HandleWorldClick(g, h, bar, kael, cx, cy, b).0 == h
    ensures h.gameState in Views - {"world"}
  {
  }
}
