/** The shape of the story data the dialogue interpreter reads: scenes keyed by
    id, each with dialogue nodes, trailing choices, and optionally a minigame or
    a free-text input puzzle; plus the character portrait table and the visual
    effect table. Also the structural well-formedness conditions the shipped
    story is proved to meet. */
module SceneGraph {
  import opened Common

  type SceneId = string

  /** The speaker name that marks a node as a system overlay rather than character speech. */
  const SystemSpeaker: string := "System"

  /** One dialogue line. `effects: null` in the data is the empty sequence (the interpreter reads `node.effects || []`). */
  datatype Node = Node(speaker: string, emotion: Option<string>, effects: seq<string>)

  /** A trailing choice; a missing `nextScene` is `None`. */
  datatype Choice = Choice(caption: string, nextScene: Option<SceneId>)

  /** A minigame descriptor: its `type` tag, optional difficulty and the scene loaded on completion. */
  datatype MinigameDesc = MinigameDesc(kind: Option<string>, difficulty: Option<string>, onComplete: Option<SceneId>)

  /** A scene. An absent `dialogue` or `choices` list is the empty sequence: the
      interpreter treats the two alike everywhere. */
  datatype Scene = Scene(
    dialogue: seq<Node>,
    choices: seq<Choice>,
    minigame: Option<MinigameDesc>,
    inputPrompt: Option<string>,
    inputAnswer: Option<string>,
    nextOnCorrect: Option<SceneId>)

  type Graph = map<SceneId, Scene>

  /** A character: display name and an ordered table from pose (emotion) to image path. */
  datatype Character = Character(name: string, images: seq<(string, string)>)

  /** An entry of the visual effect table. */
  datatype EffectSpec = EffectSpec(kind: string, duration: nat)

  /** JavaScript truthiness of an optional string: present and non-empty. */
  predicate Truthy(s: Option<string>)
  {
    s.Some? && |s.value| > 0
  }

  /** JavaScript truthiness of the input prompt decides whether a scene is an input puzzle. */
  predicate IsInputScene(s: Scene)
  {
    s.minigame.None? && Truthy(s.inputPrompt)
  }

  /** The keys of an ordered association list. */
  function Keys<V>(table: seq<(string, V)>): set<string>
  {
    set i | 0 <= i < |table| :: table[i].0
  }

  lemma KeysOfTail<V>(table: seq<(string, V)>)
    requires |table| > 0
    ensures Keys(table) == {table[0].0} + Keys(table[1..])
  {
    forall k | k in Keys(table) ensures k in {table[0].0} + Keys(table[1..]) {
      var i :| 0 <= i < |table| && table[i].0 == k;
      if i > 0 { assert table[1..][i - 1].0 == k; }
    }
    forall k | k in Keys(table[1..]) ensures k in Keys(table) {
      var i :| 0 <= i < |table[1..]| && table[1..][i].0 == k;
      assert table[i + 1].0 == k;
    }
  }

  /** First value stored under `key` in an ordered association list (JavaScript property lookup). */
  function Lookup<V(==)>(table: seq<(string, V)>, key: string): (r: Option<V>)
    ensures r.Some? <==> key in Keys(table)
    ensures r.Some? ==> (key, r.value) in table
  {
    if |table| == 0 then None
    else if table[0].0 == key then Some(table[0].1)
    else
      KeysOfTail(table);
      var r := Lookup(table[1..], key);
      assert r.Some? ==> (key, r.value) in table by {
        if r.Some? {
          var i :| 0 <= i < |table[1..]| && table[1..][i] == (key, r.value);
          assert table[i + 1] == (key, r.value);
        }
      }
      r
  }

  // ---------------------------------------------------------------------------
  // Referential integrity and content conditions on a scene graph
  // ---------------------------------------------------------------------------

  /** An optional scene reference that names a scene of `g`. */
  predicate Resolves(g: Graph, t: Option<SceneId>)
  {
    t.Some? && t.value in g
  }

  /** Every choice of every scene names an existing scene. */
  predicate ChoicesResolve(g: Graph)
  {
    forall id, i :: id in g && 0 <= i < |g[id].choices| ==> Resolves(g, g[id].choices[i].nextScene)
  }

  /** Every minigame's `onComplete` and every input puzzle's `nextOnCorrect` names an existing scene. */
  predicate FollowUpsResolve(g: Graph)
  {
    && (forall id :: id in g && g[id].minigame.Some? ==> Resolves(g, g[id].minigame.value.onComplete))
    && (forall id :: id in g && IsInputScene(g[id]) ==> Resolves(g, g[id].nextOnCorrect))
  }

  /** Minigame scenes carry no dialogue, choices or input prompt, so dispatching the
      minigame first hides nothing. */
  predicate MinigameScenesAreBare(g: Graph)
  {
    forall id :: id in g && g[id].minigame.Some? ==>
      |g[id].dialogue| == 0 && |g[id].choices| == 0 && g[id].inputPrompt.None?
  }

  /** Every effect tag on every node is one of `tags`. */
  predicate EffectTagsIn(g: Graph, tags: set<string>)
  {
    forall id, i, k :: id in g && 0 <= i < |g[id].dialogue| && 0 <= k < |g[id].dialogue[i].effects| ==>
      g[id].dialogue[i].effects[k] in tags
  }

  /** Some choice of `s`, or its minigame's completion, names `t`. */
  predicate LeadsTo(s: Scene, t: SceneId)
  {
    || (exists i :: 0 <= i < |s.choices| && s.choices[i].nextScene == Some(t))
    || (s.minigame.Some? && s.minigame.value.onComplete == Some(t))
  }

  /** No choice and no minigame completion of `g` leads to `t`: only an input
      puzzle's `nextOnCorrect` or a direct start can enter it. */
  predicate NoEdgeInto(g: Graph, t: SceneId)
  {
    forall id :: id in g ==> !LeadsTo(g[id], t)
  }

  predicate WellFormed(g: Graph)
  {
    ChoicesResolve(g) && FollowUpsResolve(g) && MinigameScenesAreBare(g)
  }
}
