/** The minigame harness of `Minigames.js` (`Minigames.run`): it opens an overlay,
    builds the puzzle named by the descriptor's `type`, and hands each puzzle a
    `done` continuation that closes the overlay and calls the caller's callback. */
module Minigames {
  import opened Common
  import opened SceneGraph

  /** The puzzle builders; `type` is compared exactly, and anything else gets the
      generic panel with a single Complete button. */
  datatype Kind = SimonPads | PipeRotation | WaveStitch | StealthEscape | CompleteButton

  function KindOf(desc: MinigameDesc): (k: Kind)
    ensures desc.kind == Some("hacking_puzzle") <==> k == SimonPads
    ensures desc.kind == Some("memory_puzzle") <==> k == PipeRotation
    ensures desc.kind == Some("audio_stitch") <==> k == WaveStitch
    ensures desc.kind == Some("stealth_escape") <==> k == StealthEscape
  {
    match desc.kind
    case Some(t) =>
      if t == "hacking_puzzle" then SimonPads
      else if t == "memory_puzzle" then PipeRotation
      else if t == "audio_stitch" then WaveStitch
      else if t == "stealth_escape" then StealthEscape
      else CompleteButton
    case None => CompleteButton
  }

  /** What `run(def, onComplete)` does at once: without a descriptor it completes
      immediately and opens nothing; otherwise it opens the overlay for one puzzle. */
  datatype Launch = CompletedAtOnce | Opened(kind: Kind)

  /** Calls the harness makes: remove the overlay, call the caller's callback. */
  datatype Call = CloseOverlay | NotifyComplete

  function Run(def: Option<MinigameDesc>, hasCallback: bool): (r: (Launch, seq<Call>))
    ensures def.None? ==> r.0 == CompletedAtOnce && (Count(r.1, NotifyComplete) == 1 <==> hasCallback)
    ensures def.Some? ==> r == (Opened(KindOf(def.value)), [])
  {
    match def
    case None => (CompletedAtOnce, if hasCallback then [NotifyComplete] else [])
    case Some(d) => (Opened(KindOf(d)), [])
  }

  /** The overlay and whether `done` already ran (only the corrected `done` looks at it). */
  datatype Session = Session(overlay: bool, finished: bool, hasCallback: bool)

  function Open(hasCallback: bool): Session
  {
    Session(true, false, hasCallback)
  }

  /** `done` as written: every call removes the overlay (again) and calls the callback (again). */
  function DoneAsWritten(s: Session): (r: (Session, seq<Call>))
    ensures !r.0.overlay && r.0.hasCallback == s.hasCallback
    ensures Count(r.1, NotifyComplete) == (if s.hasCallback then 1 else 0)
  {
    (s.(overlay := false), [CloseOverlay] + (if s.hasCallback then [NotifyComplete] else []))
  }

  /** `done` as evidently intended: only the first call closes the puzzle and notifies. */
  function Done(s: Session): (r: (Session, seq<Call>))
    ensures !r.0.overlay && r.0.finished && r.0.hasCallback == s.hasCallback
    ensures s.finished ==> r == (s.(overlay := false), [])
    ensures !s.finished ==> Count(r.1, NotifyComplete) == (if s.hasCallback then 1 else 0)
  {
    if s.finished then (s.(overlay := false), [])
    else (s.(overlay := false, finished := true), [CloseOverlay] + (if s.hasCallback then [NotifyComplete] else []))
  }

  /** `n` firings of the completion timer. */
  function DoneTimes(s: Session, n: nat, asWritten: bool): (r: (Session, seq<Call>))
    decreases n
  {
    if n == 0 then (s, [])
    else
      var r1 := if asWritten then DoneAsWritten(s) else Done(s);
      var r2 := DoneTimes(r1.0, n - 1, asWritten);
      (r2.0, r1.1 + r2.1)
  }

  /** As written, the callback runs once per firing. */
  lemma {:induction false} AsWrittenNotifiesEachTime(s: Session, n: nat)
    requires s.hasCallback
    ensures Count(DoneTimes(s, n, true).1, NotifyComplete) == n
    decreases n
  {
    if n > 0 {
      var r1 := DoneAsWritten(s);
      AsWrittenNotifiesEachTime(r1.0, n - 1);
      assert multiset(r1.1 + DoneTimes(r1.0, n - 1, true).1)
        == multiset(r1.1) + multiset(DoneTimes(r1.0, n - 1, true).1);
    }
  }

  /** Corrected, the callback runs exactly once however often the timer fires. */
  lemma {:induction false} DoneNotifiesOnce(s: Session, n: nat)
    requires s.hasCallback
    ensures Count(DoneTimes(s, n, false).1, NotifyComplete) == (if n > 0 && !s.finished then 1 else 0)
    decreases n
  {
    if n > 0 {
      var r1 := Done(s);
      DoneNotifiesOnce(r1.0, n - 1);
      assert multiset(r1.1 + DoneTimes(r1.0, n - 1, false).1)
        == multiset(r1.1) + multiset(DoneTimes(r1.0, n - 1, false).1);
    }
  }
}
