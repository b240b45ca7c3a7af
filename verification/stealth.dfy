/** The "stealth escape" minigame of `Minigames.js` (`buildStealth`): a scanner
    sweeps with a two-second period and the player must press Move three times
    while it is away.

    The animation loop is an event `Frame(now)` carrying the `Date.now()` reading;
    it keeps running until cancelled. `safe` is whatever the last frame computed. */
module Stealth {
  import opened Common

  const Period: nat := 2000
  const StepsRequired: nat := 3

  /** The scanner is away in the middle of its sweep, strictly between 600 and 1400 ms. */
  predicate SafeAt(now: nat)
  {
    var t := now % Period;
    600 < t < 1400
  }

  /** The safe window is the same in every period. */
  lemma SafeIsPeriodic(now: nat, k: nat)
    ensures SafeAt(now + k * Period) == SafeAt(now)
  {
    assert (now + k * Period) % Period == now % Period;
  }

  datatype Stealth = Stealth(steps: nat, safe: bool, looping: bool)

  /** A Move outcome: counted, or detected; `ScheduleDone` is the completion timer. */
  datatype Cue = Moved | Detected | ScheduleDone

  datatype Out = Out(st: Stealth, cues: seq<Cue>)

  /** The puzzle as built: the first frame runs immediately. */
  function Build(now: nat): (s: Stealth)
    ensures s.steps == 0 && s.looping && (s.safe <==> SafeAt(now))
  {
    Stealth(0, SafeAt(now), true)
  }

  /** One animation frame: while the loop runs, `safe` follows the clock; once cancelled, nothing changes. */
  function Frame(s: Stealth, now: nat): (r: Stealth)
    ensures s.looping ==> r == s.(safe := SafeAt(now))
    ensures !s.looping ==> r == s
  {
    if s.looping then s.(safe := SafeAt(now)) else s
  }

  /** The Move button: a move while safe is counted, and the move that reaches the
      required count cancels the loop and schedules completion; otherwise detection. */
  function Move(s: Stealth): (r: Out)
    ensures s.safe ==> r.st.steps == s.steps + 1 && r.st.safe
    ensures !s.safe ==> r == Out(s, [Detected])
    ensures (ScheduleDone in r.cues) <==> s.safe && s.steps + 1 >= StepsRequired
    ensures ScheduleDone in r.cues ==> !r.st.looping
  {
    if s.safe then
      var s1 := s.(steps := s.steps + 1);
      if s1.steps >= StepsRequired then Out(s1.(looping := false), [Moved, ScheduleDone])
      else Out(s1, [Moved])
    else Out(s, [Detected])
  }

  /** A player input or a frame. */
  datatype Event = Tick(now: nat) | MovePressed

  /** A frame never changes the count and reports nothing; a move adds at most one
      step; a cancelled loop is never restarted. */
  function Step(s: Stealth, ev: Event): (r: Out)
    ensures ev.Tick? ==> r.cues == [] && r.st.steps == s.steps && r.st.looping == s.looping
    ensures s.steps <= r.st.steps <= s.steps + 1
    ensures !s.looping ==> !r.st.looping
    ensures ScheduleDone in r.cues ==> !r.st.looping && r.st.steps >= StepsRequired
  {
    match ev
    case Tick(now) => Out(Frame(s, now), [])
    case MovePressed => Move(s)
  }

  /** Handles the events in order. The count never decreases, a cancelled loop
      stays cancelled, and once completion is scheduled the loop is off for good. */
  function Run(s: Stealth, evs: seq<Event>): (r: Out)
    ensures s.steps <= r.st.steps
    ensures !s.looping ==> !r.st.looping
    ensures ScheduleDone in r.cues ==> !r.st.looping && r.st.steps >= StepsRequired
    decreases |evs|
  {
    if |evs| == 0 then Out(s, [])
    else
      var r1 := Step(s, evs[0]);
      var r2 := Run(r1.st, evs[1..]);
      Out(r2.st, r1.cues + r2.cues)
  }

  /** Steps count exactly the moves made while safe, each reported as `Moved`; so
      they never decrease, and each event adds at most one. */
  lemma {:induction false} StepsCountSafeMoves(s: Stealth, evs: seq<Event>)
    ensures Run(s, evs).st.steps == s.steps + Count(Run(s, evs).cues, Moved)
    ensures s.steps <= Run(s, evs).st.steps <= s.steps + |evs|
    decreases |evs|
  {
    if |evs| > 0 {
      var r1 := Step(s, evs[0]);
      var r2 := Run(r1.st, evs[1..]);
      StepsCountSafeMoves(r1.st, evs[1..]);
      assert r1.st.steps == s.steps + Count(r1.cues, Moved);
      assert multiset(r1.cues + r2.cues) == multiset(r1.cues) + multiset(r2.cues);
    }
  }

  /** Once the loop is cancelled, frames no longer update `safe`: it stays as the last move left it. */
  lemma {:induction false} SafeFrozenAfterFinish(s: Stealth, nows: seq<nat>)
    requires !s.looping
    ensures Run(s, seq(|nows|, i requires 0 <= i < |nows| => Tick(nows[i]))).st == s
    decreases |nows|
  {
    var evs := seq(|nows|, i requires 0 <= i < |nows| => Tick(nows[i]));
    if |nows| > 0 {
      assert evs[1..] == seq(|nows[1..]|, i requires 0 <= i < |nows[1..]| => Tick(nows[1..][i]));
      SafeFrozenAfterFinish(s, nows[1..]);
    }
  }

  /** As written, every Move after the finishing one schedules completion again:
      the frozen `safe` is still true and the count is still at least three. */
  lemma MoveAfterFinishSchedulesAgain(s: Stealth)
    requires s.steps >= StepsRequired && s.safe && !s.looping
    ensures Move(s).cues == [Moved, ScheduleDone] && Move(Move(s).st).cues == [Moved, ScheduleDone]
  {
  }

  /** A concrete run: three safe moves, then a fourth click before the 300 ms timer
      fires; completion is scheduled twice. */
  lemma FourthMoveSchedulesDoneTwice()
    ensures var r := Run(Build(700), [MovePressed, MovePressed, MovePressed, MovePressed]);
      r.cues == [Moved, Moved, Moved, ScheduleDone, Moved, ScheduleDone]
  {
    var s0 := Build(700);
    assert SafeAt(700);
    var evs := [MovePressed, MovePressed, MovePressed, MovePressed];
    assert evs[1..] == [MovePressed, MovePressed, MovePressed];
    assert evs[1..][1..] == [MovePressed, MovePressed];
    assert evs[1..][1..][1..] == [MovePressed];
    assert evs[1..][1..][1..][1..] == [];
  }
}
