/** The "audio stitch" minigame of `Minigames.js` (`buildAudioStitch`): five wave
    segments are shuffled and the player swaps pairs until they are back in order. */
module AudioStitch {
  import opened Common

  const SegmentCount: nat := 5

  /** `[0, 1, ..., n - 1]`. */
  function Identity(n: nat): (r: seq<nat>)
    ensures |r| == n && forall i :: 0 <= i < n ==> r[i] == i
  {
    seq(n, i => i)
  }

  /** The order is a rearrangement of the segments `0 .. n-1`. */
  predicate IsArrangement(order: seq<nat>)
  {
    multiset(order) == multiset(Identity(|order|))
  }

  /** The completion test `order.every((v, i) => v === i)`. */
  predicate Restored(order: seq<nat>)
  {
    forall i :: 0 <= i < |order| ==> order[i] == i
  }

  lemma RestoredIsIdentity(order: seq<nat>)
    ensures Restored(order) <==> order == Identity(|order|)
  {
  }

  /** The opening order: the identity shuffled with one draw per position from the last down to the second. */
  function Shuffle(draws: seq<real>): (r: seq<nat>)
    requires AreDraws(draws) && |draws| == SegmentCount - 1
    ensures |r| == SegmentCount && IsArrangement(r)
  {
    ShuffleDown(Identity(SegmentCount), SegmentCount - 1, draws)
  }

  /** The order and the first segment picked, if any. */
  datatype Stitch = Stitch(order: seq<nat>, first: Option<nat>)

  predicate Valid(s: Stitch)
  {
    |s.order| == SegmentCount && IsArrangement(s.order) && (s.first.Some? ==> s.first.value < |s.order|)
  }

  datatype Cue = ScheduleDone

  datatype Out = Out(st: Stitch, cues: seq<Cue>)

  function Build(draws: seq<real>): (s: Stitch)
    requires AreDraws(draws) && |draws| == SegmentCount - 1
    ensures Valid(s) && s.first.None?
  {
    Stitch(Shuffle(draws), None)
  }

  /** A click on the segment at `pos`: the first click selects it, a click on the
      selected one deselects it, a click on another swaps the two; completion is
      scheduled when a swap leaves the segments in order. */
  function Click(s: Stitch, pos: nat): (r: Out)
    requires Valid(s) && pos < |s.order|
    ensures Valid(r.st)
    ensures s.first.None? ==> r == Out(s.(first := Some(pos)), [])
    ensures s.first == Some(pos) ==> r == Out(s.(first := None), [])
    ensures s.first.Some? && s.first.value != pos ==>
      && r.st == Stitch(Swap(s.order, s.first.value, pos), None)
      && (r.cues == [ScheduleDone] <==> Restored(r.st.order))
      && (r.cues == [] <==> !Restored(r.st.order))
  {
    match s.first
    case None => Out(s.(first := Some(pos)), [])
    case Some(f) =>
      if f == pos then Out(s.(first := None), [])
      else
        var order := Swap(s.order, f, pos);
        Out(Stitch(order, None), if Restored(order) then [ScheduleDone] else [])
  }

  /** Only a swap can finish the puzzle: selecting or deselecting never does. */
  lemma OnlySwapsFinish(s: Stitch, pos: nat)
    requires Valid(s) && pos < |s.order|
    requires s.first.None? || s.first == Some(pos)
    ensures Click(s, pos).cues == [] && Click(s, pos).st.order == s.order
  {
  }

  /** Two clicks on different segments in a fresh selection swap exactly those two. */
  lemma TwoClicksSwap(s: Stitch, a: nat, b: nat)
    requires Valid(s) && s.first.None? && a < |s.order| && b < |s.order| && a != b
    ensures Click(Click(s, a).st, b).st.order == Swap(s.order, a, b)
  {
  }

  /** Applies clicks in order, gathering the cues. */
  function Clicks(s: Stitch, ps: seq<nat>): (r: Out)
    requires Valid(s) && forall k :: 0 <= k < |ps| ==> ps[k] < SegmentCount
    ensures Valid(r.st)
    decreases |ps|
  {
    if |ps| == 0 then Out(s, [])
    else
      var r1 := Click(s, ps[0]);
      var r2 := Clicks(r1.st, ps[1..]);
      Out(r2.st, r1.cues + r2.cues)
  }

  /** Whatever the player clicks, the segments stay a rearrangement of the five. */
  lemma {:induction false} ClicksKeepArrangement(s: Stitch, ps: seq<nat>)
    requires Valid(s) && forall k :: 0 <= k < |ps| ==> ps[k] < SegmentCount
    ensures multiset(Clicks(s, ps).st.order) == multiset(s.order)
    decreases |ps|
  {
    if |ps| > 0 {
      ClicksKeepArrangement(Click(s, ps[0]).st, ps[1..]);
    }
  }

  // ---------------------------------------------------------------------------
  // Every opening order can be restored
  // ---------------------------------------------------------------------------

  /** Position of value `v` in `s`. */
  function IndexOf(s: seq<nat>, v: nat): (k: nat)
    requires v in s
    ensures k < |s| && s[k] == v
  {
    if s[0] == v then 0 else 1 + IndexOf(s[1..], v)
  }

  /** Values `0 .. i-1` sit at their own positions. */
  predicate PrefixPlaced(s: seq<nat>, i: nat)
  {
    i <= |s| && forall k :: 0 <= k < i ==> s[k] == k
  }

  /** In an arrangement whose first `i` positions are placed, value `i` lies at or after position `i`. */
  lemma NextValueAhead(s: seq<nat>, i: nat)
    requires IsArrangement(s) && PrefixPlaced(s, i) && i < |s|
    ensures i in s && IndexOf(s, i) >= i
  {
    assert Identity(|s|)[i] == i;
    assert i in multiset(Identity(|s|));
  }

  /** Clicks that place values `i .. n-1` one by one, selection-sort style:
      for each value not yet at its position, click its position and then the target position. */
  function SortClicks(s: seq<nat>, i: nat): (ps: seq<nat>)
    requires IsArrangement(s) && PrefixPlaced(s, i)
    ensures forall k :: 0 <= k < |ps| ==> ps[k] < |s|
    decreases |s| - i
  {
    if i >= |s| then []
    else
      NextValueAhead(s, i);
      var k := IndexOf(s, i);
      if k == i then SortClicks(s, i + 1)
      else
        var t := Swap(s, k, i);
        [k, i] + SortClicks(t, i + 1)
  }

  /** One click, then the rest. */
  lemma ClicksCons(s: Stitch, p: nat, rest: seq<nat>)
    requires Valid(s) && p < SegmentCount && forall k :: 0 <= k < |rest| ==> rest[k] < SegmentCount
    ensures var r1 := Click(s, p);
      Clicks(s, [p] + rest) == Out(Clicks(r1.st, rest).st, r1.cues + Clicks(r1.st, rest).cues)
  {
    assert ([p] + rest)[0] == p && ([p] + rest)[1..] == rest;
  }

  /** Clicking `a` then `b` on a fresh selection, then more. */
  lemma SwapThenClicks(s: Stitch, a: nat, b: nat, rest: seq<nat>)
    requires Valid(s) && s.first.None? && a < |s.order| && b < |s.order| && a != b
    requires forall k :: 0 <= k < |rest| ==> rest[k] < SegmentCount
    ensures var t := Stitch(Swap(s.order, a, b), None);
      var cue: seq<Cue> := if Restored(t.order) then [ScheduleDone] else [];
      && Valid(t)
      && Clicks(s, [a, b] + rest) == Out(Clicks(t, rest).st, cue + Clicks(t, rest).cues)
  {
    var r1 := Click(s, a);
    assert [a, b] + rest == [a] + ([b] + rest);
    ClicksCons(s, a, [b] + rest);
    ClicksCons(r1.st, b, rest);
    assert r1.cues == [];
  }

  /** Completion is reported by the click that restores the order. */
  lemma {:induction false} SortClicksRestore(s: Stitch, i: nat)
    requires Valid(s) && s.first.None? && PrefixPlaced(s.order, i)
    requires !Restored(s.order)
    ensures var ps := SortClicks(s.order, i);
      var r := Clicks(s, ps);
      Restored(r.st.order) && ScheduleDone in r.cues
    decreases |s.order| - i
  {
    NextValueAhead(s.order, i);
    var k := IndexOf(s.order, i);
    if k == i {
      SortClicksRestore(s, i + 1);
    } else {
      var t := Stitch(Swap(s.order, k, i), None);
      var rest := SortClicks(t.order, i + 1);
      assert SortClicks(s.order, i) == [k, i] + rest;
      SwapThenClicks(s, k, i, rest);
      assert PrefixPlaced(t.order, i + 1);
      if Restored(t.order) {
        RestoredStaysQuiet(t, i + 1);
        assert rest == [];
      } else {
        SortClicksRestore(t, i + 1);
      }
    }
  }

  /** Once the order is restored, the remaining sort clicks are none. */
  lemma {:induction false} RestoredStaysQuiet(s: Stitch, i: nat)
    requires Valid(s) && Restored(s.order) && i <= |s.order|
    ensures SortClicks(s.order, i) == []
    decreases |s.order| - i
  {
    if i < |s.order| {
      NextValueAhead(s.order, i);
      RestoredStaysQuiet(s, i + 1);
    }
  }

  /** An opening already in order is finished by swapping two segments and swapping
      them back: the second swap reports completion. */
  lemma OrderedSolvable(s: Stitch) returns (ps: seq<nat>)
    requires Valid(s) && s.first.None? && Restored(s.order)
    ensures forall k :: 0 <= k < |ps| ==> ps[k] < SegmentCount
    ensures Restored(Clicks(s, ps).st.order) && ScheduleDone in Clicks(s, ps).cues
  {
    var back: seq<nat> := [0, 1];
    ps := [0, 1] + back;
    var t := Stitch(Swap(s.order, 0, 1), None);
    var u := Stitch(Swap(t.order, 0, 1), None);
    assert u.order == s.order by {
      assert forall k :: 0 <= k < |s.order| ==> u.order[k] == s.order[k];
    }
    SwapThenClicks(t, 0, 1, []);
    assert back == [0, 1] + [];
    assert Clicks(u, []) == Out(u, []);
    assert Clicks(t, back) == Out(u, [ScheduleDone]);
    SwapThenClicks(s, 0, 1, back);
  }

  /** Every shuffled opening can be solved: from any arrangement there are clicks that
      put it in order and report completion. */
  lemma AlwaysSolvable(s: Stitch)
    requires Valid(s) && s.first.None?
    ensures exists ps :: (
      && (forall k :: 0 <= k < |ps| ==> ps[k] < SegmentCount)
      && Restored(Clicks(s, ps).st.order)
      && ScheduleDone in Clicks(s, ps).cues)
  {
    if Restored(s.order) {
      var ps := OrderedSolvable(s);
    } else {
      var ps := SortClicks(s.order, 0);
      SortClicksRestore(s, 0);
    }
  }
}
