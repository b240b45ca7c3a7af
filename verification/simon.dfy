/** The "hacking" minigame of `Minigames.js` (`buildSimon`): four pads light up
    in a random sequence and the player repeats it.

    Timers are events: `StartPlayback` is `playSequence` running (the autoplay, a
    replay after a mistake, or the Play button), `EndPlayback` is the timer that
    hands the turn to the player after the last highlight. A press answers with
    the cues it schedules: a replay after a mistake, or completion. */
module Simon {
  import opened Common
  import opened Text
  import opened SceneGraph

  const PadCount: nat := 4

  /** `(def.difficulty || 'medium').toLowerCase()` decides the length: easy 3, hard 6, anything else 4. */
  function SequenceLength(difficulty: Option<string>): (n: nat)
    ensures n == 3 || n == 4 || n == 6
  {
    var d := Lower(if Truthy(difficulty) then difficulty.value else "medium");
    if d == "easy" then 3 else if d == "hard" then 6 else 4
  }

  /** Letter case does not matter, and a missing or empty difficulty reads as medium. */
  lemma SequenceLengthTable(a: string, b: string)
    requires Lower(a) == Lower(b)
    ensures SequenceLength(Some(a)) == SequenceLength(Some(b))
    ensures SequenceLength(None) == 4 && SequenceLength(Some("")) == 4
    ensures SequenceLength(Some("easy")) == 3 && SequenceLength(Some("Hard")) == 6
  {
    assert |a| == |Lower(a)| == |Lower(b)| == |b|;
    assert Lower("medium") == "medium";
    assert Lower("easy") == "easy";
    assert Lower("Hard") == "hard";
  }

  datatype Simon = Simon(sequence: seq<nat>, index: nat, playing: bool)

  /** Cues a press schedules: replay the sequence after a mistake, or finish. */
  datatype Cue = Replay | ScheduleDone

  datatype Out = Out(st: Simon, cues: seq<Cue>)

  predicate Valid(s: Simon)
  {
    && |s.sequence| > 0
    && s.index <= |s.sequence|
    && forall i :: 0 <= i < |s.sequence| ==> s.sequence[i] < PadCount
  }

  /** The puzzle as built: one pad per draw of `Math.random()`, playback already under way. */
  function Build(difficulty: Option<string>, draws: seq<real>): (s: Simon)
    requires AreDraws(draws) && |draws| == SequenceLength(difficulty)
    ensures Valid(s) && s.index == 0 && s.playing
    ensures |s.sequence| == SequenceLength(difficulty)
    ensures forall i :: 0 <= i < |draws| ==> s.sequence[i] == RandomIndex(draws[i], PadCount)
  {
    Simon(seq(|draws|, i requires 0 <= i < |draws| => RandomIndex(draws[i], PadCount)), 0, true)
  }

  /** `playSequence` starts: pad presses are ignored until the playback ends. */
  function StartPlayback(s: Simon): (r: Simon)
    ensures r.playing && r.sequence == s.sequence && r.index == s.index
  {
    s.(playing := true)
  }

  /** The timer after the last highlight: the player's turn starts from the first pad. */
  function EndPlayback(s: Simon): (r: Simon)
    requires Valid(s)
    ensures Valid(r) && !r.playing && r.index == 0 && r.sequence == s.sequence
  {
    s.(playing := false, index := 0)
  }

  /** The Play button replays only when no playback is running. */
  function PlayButton(s: Simon): (r: Simon)
    ensures s.playing ==> r == s
    ensures !s.playing ==> r == StartPlayback(s)
  {
    if s.playing then s else StartPlayback(s)
  }

  /** A press on pad `id`: ignored during playback; a wrong pad (or any pad once the
      sequence is complete) schedules a replay and keeps the position; the right pad
      advances, and reaching the end schedules completion. */
  function Press(s: Simon, id: nat): (r: Out)
    requires Valid(s)
    ensures Valid(r.st) && r.st.sequence == s.sequence && r.st.playing == s.playing
    ensures s.playing ==> r == Out(s, [])
    ensures !s.playing && s.index < |s.sequence| && id == s.sequence[s.index] ==>
      r.st.index == s.index + 1 && r.cues == (if s.index + 1 == |s.sequence| then [ScheduleDone] else [])
    ensures !s.playing && !(s.index < |s.sequence| && id == s.sequence[s.index]) ==>
      r == Out(s, [Replay])
  {
    if s.playing then Out(s, [])
    else if s.index >= |s.sequence| || id != s.sequence[s.index] then Out(s, [Replay])
    else
      var s1 := s.(index := s.index + 1);
      Out(s1, if s1.index >= |s1.sequence| then [ScheduleDone] else [])
  }

  /** Presses one pad after the other with no timer firing in between. */
  function PressAll(s: Simon, ids: seq<nat>): (r: Out)
    requires Valid(s)
    ensures Valid(r.st) && r.st.sequence == s.sequence && r.st.playing == s.playing
    ensures s.index <= r.st.index <= s.index + |ids|
    ensures ScheduleDone in r.cues ==> r.st.index == |s.sequence|
    decreases |ids|
  {
    if |ids| == 0 then Out(s, [])
    else
      var r1 := Press(s, ids[0]);
      var r2 := PressAll(r1.st, ids[1..]);
      Out(r2.st, r1.cues + r2.cues)
  }

  /** From a position `k` before the end, on the player's turn, exactly as many presses as remain
      finish the puzzle iff they repeat the rest of the sequence, and schedule a
      replay iff they do not. */
  lemma {:induction false} RepeatFinishesIffExact(s: Simon, ids: seq<nat>)
    requires Valid(s) && !s.playing && s.index < |s.sequence| && |ids| == |s.sequence| - s.index
    ensures var r := PressAll(s, ids);
      && (ScheduleDone in r.cues <==> ids == s.sequence[s.index..])
      && (Replay in r.cues <==> ids != s.sequence[s.index..])
    decreases |ids|
  {
    if |ids| > 0 {
      var r1 := Press(s, ids[0]);
      var r2 := PressAll(r1.st, ids[1..]);
      var rest := s.sequence[s.index..];
      assert rest == [s.sequence[s.index]] + s.sequence[s.index + 1..];
      if ids[0] == s.sequence[s.index] {
        if s.index + 1 < |s.sequence| {
          RepeatFinishesIffExact(r1.st, ids[1..]);
        }
        assert ids == rest <==> ids[1..] == s.sequence[s.index + 1..] by {
          assert ids == [ids[0]] + ids[1..];
        }
        assert PressAll(s, ids).cues == r1.cues + r2.cues;
        if s.index + 1 == |s.sequence| {
          assert ids[1..] == [] && r2.cues == [];
          assert r1.cues + r2.cues == [ScheduleDone];
        } else {
          assert r1.cues + r2.cues == r2.cues;
        }
      } else {
        assert ids != rest by { assert ids[0] != rest[0]; }
        assert r1.cues == [Replay];
        MissedPressNeverFinishes(r1.st, ids[1..]);
        assert PressAll(s, ids).cues == [Replay] + r2.cues;
        assert ScheduleDone !in [Replay] + r2.cues;
      }
    }
  }

  /** With fewer presses left than pads left, completion is never scheduled. */
  lemma {:induction false} MissedPressNeverFinishes(s: Simon, ids: seq<nat>)
    requires Valid(s) && !s.playing && |ids| < |s.sequence| - s.index
    ensures ScheduleDone !in PressAll(s, ids).cues
    decreases |ids|
  {
    if |ids| > 0 {
      var r1 := Press(s, ids[0]);
      MissedPressNeverFinishes(r1.st, ids[1..]);
      assert ScheduleDone !in r1.cues;
    }
  }

  /** Pressing the whole sequence right after a playback ends finishes the puzzle. */
  lemma RepeatAfterPlayback(s: Simon)
    requires Valid(s)
    ensures var r := PressAll(EndPlayback(s), s.sequence);
      ScheduleDone in r.cues && Replay !in r.cues
  {
    var t := EndPlayback(s);
    RepeatFinishesIffExact(t, s.sequence);
    assert t.sequence[t.index..] == s.sequence;
  }

  /** During playback every press is ignored. */
  lemma {:induction false} PressesIgnoredDuringPlayback(s: Simon, ids: seq<nat>)
    requires Valid(s) && s.playing
    ensures PressAll(s, ids) == Out(s, [])
    decreases |ids|
  {
    if |ids| > 0 {
      PressesIgnoredDuringPlayback(s, ids[1..]);
    }
  }
}
