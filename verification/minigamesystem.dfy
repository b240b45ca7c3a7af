/** The card-matching game `MemoryPuzzleGame` of `miniGames.js`: sixteen face-down
    cards on a 4×4 grid, two of each symbol A–H; the player moves a cursor with the
    arrow keys and flips cards with Enter or Space. When two cards are face up, a
    timer (an explicit `CheckMatch` event here) either keeps them as a matched pair or
    turns them back down. */
module MemoryPuzzle {
  import opened Common

  const GridSize: nat := 4
  const TotalPairs: nat := 8
  const Symbols: seq<char> := ['A', 'B', 'C', 'D', 'E', 'F', 'G', 'H']
  const CardCount: nat := 16

  datatype Card = Card(symbol: char, matched: bool, flipped: bool)

  /** Two face-down copies of each symbol, in the order `initializeCards` pushes them. */
  function Pairs(syms: seq<char>): (d: seq<Card>)
    ensures |d| == 2 * |syms|
    ensures forall i :: 0 <= i < |d| ==> d[i] == Card(syms[i / 2], false, false)
  {
    seq(2 * |syms|, i requires 0 <= i < 2 * |syms| => Card(syms[i / 2], false, false))
  }

  /** The deck of a non-empty symbol list starts with the two cards of its first symbol. */
  lemma PairsCons(syms: seq<char>)
    requires |syms| > 0
    ensures Pairs(syms) == [Card(syms[0], false, false), Card(syms[0], false, false)] + Pairs(syms[1..])
  {
    var two := [Card(syms[0], false, false), Card(syms[0], false, false)];
    var rest := Pairs(syms[1..]);
    forall i | 2 <= i < 2 * |syms|
      ensures Pairs(syms)[i] == (two + rest)[i]
    {
      assert (i - 2) / 2 == i / 2 - 1;
    }
  }

  /** Each card of the unshuffled deck occurs twice for each occurrence of its symbol. */
  lemma {:induction false} PairsCount(syms: seq<char>, c: char)
    ensures multiset(Pairs(syms))[Card(c, false, false)] == 2 * multiset(syms)[c]
    decreases |syms|
  {
    if |syms| > 0 {
      PairsCount(syms[1..], c);
      var two := [Card(syms[0], false, false), Card(syms[0], false, false)];
      PairsCons(syms);
      assert multiset(Pairs(syms)) == multiset(two) + multiset(Pairs(syms[1..]));
      assert syms == [syms[0]] + syms[1..];
      assert multiset(syms) == multiset([syms[0]]) + multiset(syms[1..]);
    }
  }

  /** The deck: the sixteen cards shuffled by Fisher–Yates with fifteen draws. */
  function Deck(draws: seq<real>): (d: seq<Card>)
    requires AreDraws(draws) && |draws| == CardCount - 1
    ensures |d| == CardCount && multiset(d) == multiset(Pairs(Symbols))
  {
    ShuffleDown(Pairs(Symbols), CardCount - 1, draws)
  }

  /** No symbol repeats. */
  predicate Distinct(s: seq<char>)
  {
    forall i, j :: 0 <= i < j < |s| ==> s[i] != s[j]
  }

  /** In a sequence without repetitions every element occurs once. */
  lemma {:induction false} DistinctOnce(s: seq<char>, c: char)
    requires Distinct(s) && c in s
    ensures multiset(s)[c] == 1
    decreases |s|
  {
    assert s == [s[0]] + s[1..];
    assert multiset(s) == multiset([s[0]]) + multiset(s[1..]);
    if s[0] == c {
      assert c !in s[1..];
    } else {
      DistinctOnce(s[1..], c);
    }
  }

  /** Every shuffle deals exactly two face-down cards of each symbol. */
  lemma DeckHasEachSymbolTwice(draws: seq<real>, c: char)
    requires AreDraws(draws) && |draws| == CardCount - 1 && c in Symbols
    ensures multiset(Deck(draws))[Card(c, false, false)] == 2
  {
    PairsCount(Symbols, c);
    assert Distinct(Symbols);
    DistinctOnce(Symbols, c);
  }

  /** Every card of the unshuffled deck is face down, unmatched, and carries one of the symbols. */
  lemma PairsFresh(syms: seq<char>, x: Card)
    requires x in multiset(Pairs(syms))
    ensures !x.matched && !x.flipped && x.symbol in syms
  {
    var p := Pairs(syms);
    var k :| 0 <= k < |p| && p[k] == x;
    assert syms[k / 2] in syms;
  }

  /** So is every dealt card. */
  lemma DeckIsFresh(draws: seq<real>)
    requires AreDraws(draws) && |draws| == CardCount - 1
    ensures forall i :: 0 <= i < CardCount ==>
      !Deck(draws)[i].matched && !Deck(draws)[i].flipped && Deck(draws)[i].symbol in Symbols
  {
    var d := Deck(draws);
    forall i | 0 <= i < CardCount
      ensures !d[i].matched && !d[i].flipped && d[i].symbol in Symbols
    {
      assert d[i] in multiset(d);
      PairsFresh(Symbols, d[i]);
    }
  }

  /** The game: the cards, the indices of cards flipped and awaiting the match
      check (`flippedCards`), the pairs found, the cursor, and completion. */
  datatype Memory = Memory(cards: seq<Card>, pending: seq<nat>, matchedPairs: nat, selected: nat, complete: bool)

  /** The matched flag of every card. */
  function MatchedFlags(cards: seq<Card>): (f: seq<bool>)
    ensures |f| == |cards| && forall i :: 0 <= i < |cards| ==> f[i] == cards[i].matched
  {
    seq(|cards|, i requires 0 <= i < |cards| => cards[i].matched)
  }

  /** Number of matched cards. */
  function MatchedCount(cards: seq<Card>): nat
  {
    multiset(MatchedFlags(cards))[true]
  }

  predicate Valid(m: Memory)
  {
    && |m.cards| == CardCount
    && m.selected < CardCount
    && |m.pending| <= 2
    && (forall k :: 0 <= k < |m.pending| ==> m.pending[k] < CardCount)
    && (|m.pending| == 2 ==> m.pending[0] != m.pending[1])
    && (forall k :: 0 <= k < |m.pending| ==> m.cards[m.pending[k]].flipped && !m.cards[m.pending[k]].matched)
    && (forall i :: 0 <= i < CardCount && m.cards[i].flipped && !m.cards[i].matched ==> i in m.pending)
    && (forall i :: 0 <= i < CardCount && m.cards[i].matched ==> m.cards[i].flipped)
    && MatchedCount(m.cards) == 2 * m.matchedPairs
    && (m.complete ==> m.matchedPairs >= TotalPairs)
  }

  /** The game as constructed. */
  function Build(draws: seq<real>): (m: Memory)
    requires AreDraws(draws) && |draws| == CardCount - 1
    ensures Valid(m) && m.matchedPairs == 0 && m.pending == [] && !m.complete
  {
    var d := Deck(draws);
    DeckIsFresh(draws);
    assert true !in MatchedFlags(d);
    Memory(d, [], 0, 0, false)
  }

  /** The frame update: completion once all pairs are found. */
  function Update(m: Memory): (r: Memory)
    ensures r.complete <==> m.complete || m.matchedPairs >= TotalPairs
    ensures r.(complete := m.complete) == m
  {
    if m.matchedPairs >= TotalPairs then m.(complete := true) else m
  }

  /** Cue from a flip: the two-card check is scheduled. */
  datatype Cue = ScheduleCheck

  datatype Out = Out(st: Memory, cues: seq<Cue>)

  /** `flipCard(index)`: no-op on a matched or face-up card or with two cards pending;
      otherwise the card turns up, and the second pending card schedules the check. */
  function FlipCard(m: Memory, index: nat): (r: Out)
    requires Valid(m) && index < CardCount
    ensures Valid(r.st)
    ensures m.cards[index].matched || m.cards[index].flipped || |m.pending| >= 2 ==> r == Out(m, [])
    ensures !(m.cards[index].matched || m.cards[index].flipped || |m.pending| >= 2) ==>
      && r.st.cards == m.cards[index := m.cards[index].(flipped := true)]
      && r.st.pending == m.pending + [index]
      && (r.cues == [ScheduleCheck] <==> |r.st.pending| == 2)
    ensures r.st.matchedPairs == m.matchedPairs && r.st.complete == m.complete && r.st.selected == m.selected
  {
    var card := m.cards[index];
    if card.matched || card.flipped || |m.pending| >= 2 then Out(m, [])
    else
      var cards := m.cards[index := card.(flipped := true)];
      var pending := m.pending + [index];
      assert MatchedFlags(cards) == MatchedFlags(m.cards);
      Out(m.(cards := cards, pending := pending), if |pending| == 2 then [ScheduleCheck] else [])
  }

  /** `checkMatch`, run by the timer that the second flip scheduled: equal symbols
      become a matched pair; different ones turn face down; either way nothing stays pending. */
  function CheckMatch(m: Memory): (r: Memory)
    requires Valid(m) && |m.pending| == 2
    ensures Valid(r) && r.pending == [] && r.selected == m.selected && r.complete == m.complete
    ensures var i, j := m.pending[0], m.pending[1];
      && (m.cards[i].symbol == m.cards[j].symbol ==>
        && r.matchedPairs == m.matchedPairs + 1
        && r.cards == m.cards[i := m.cards[i].(matched := true)][j := m.cards[j].(matched := true)])
      && (m.cards[i].symbol != m.cards[j].symbol ==>
        && r.matchedPairs == m.matchedPairs
        && r.cards == m.cards[i := m.cards[i].(flipped := false)][j := m.cards[j].(flipped := false)])
  {
    var i, j := m.pending[0], m.pending[1];
    if m.cards[i].symbol == m.cards[j].symbol then
      MatchKeepsValid(m);
      m.(cards := m.cards[i := m.cards[i].(matched := true)][j := m.cards[j].(matched := true)],
         pending := [], matchedPairs := m.matchedPairs + 1)
    else
      MismatchKeepsValid(m);
      m.(cards := m.cards[i := m.cards[i].(flipped := false)][j := m.cards[j].(flipped := false)], pending := [])
  }

  /** A matched pair counts two more matched cards. */
  lemma MatchKeepsValid(m: Memory)
    requires Valid(m) && |m.pending| == 2
    ensures var i, j := m.pending[0], m.pending[1];
      Valid(m.(cards := m.cards[i := m.cards[i].(matched := true)][j := m.cards[j].(matched := true)],
               pending := [], matchedPairs := m.matchedPairs + 1))
  {
    var i, j := m.pending[0], m.pending[1];
    var cards := m.cards[i := m.cards[i].(matched := true)][j := m.cards[j].(matched := true)];
    MatchLeavesNoneUp(m.cards, i, j);
    MatchCountsTwo(m.cards, i, j);
  }

  /** Marking two distinct unmatched cards matched counts two more matched cards. */
  lemma MatchCountsTwo(cards: seq<Card>, i: nat, j: nat)
    requires i < |cards| && j < |cards| && i != j && !cards[i].matched && !cards[j].matched
    ensures MatchedCount(cards[i := cards[i].(matched := true)][j := cards[j].(matched := true)]) == MatchedCount(cards) + 2
  {
    var r := cards[i := cards[i].(matched := true)][j := cards[j].(matched := true)];
    assert MatchedFlags(r) == MatchedFlags(cards)[i := true][j := true];
    SetTwoFlags(MatchedFlags(cards), i, j);
  }

  /** After marking the two pending cards matched, no card is up without being matched, and every matched card is up. */
  lemma MatchLeavesNoneUp(cards: seq<Card>, i: nat, j: nat)
    requires |cards| == CardCount && i < CardCount && j < CardCount
    requires cards[i].flipped && cards[j].flipped
    requires forall k :: 0 <= k < CardCount && cards[k].flipped && !cards[k].matched ==> k == i || k == j
    requires forall k :: 0 <= k < CardCount && cards[k].matched ==> cards[k].flipped
    ensures var r := cards[i := cards[i].(matched := true)][j := cards[j].(matched := true)];
      && (forall k :: 0 <= k < CardCount ==> !(r[k].flipped && !r[k].matched))
      && (forall k :: 0 <= k < CardCount && r[k].matched ==> r[k].flipped)
  {
  }

  /** Raising two distinct lowered flags counts two more raised ones. */
  lemma SetTwoFlags(f: seq<bool>, i: nat, j: nat)
    requires i < |f| && j < |f| && i != j && !f[i] && !f[j]
    ensures multiset(f[i := true][j := true])[true] == multiset(f)[true] + 2
  {
    assert multiset(f[i := true]) == multiset(f) - multiset{false} + multiset{true};
    assert f[i := true][j] == false;
  }

  /** A mismatch turns both cards back down and matches nothing. */
  lemma MismatchKeepsValid(m: Memory)
    requires Valid(m) && |m.pending| == 2
    ensures var i, j := m.pending[0], m.pending[1];
      Valid(m.(cards := m.cards[i := m.cards[i].(flipped := false)][j := m.cards[j].(flipped := false)], pending := []))
  {
    var i, j := m.pending[0], m.pending[1];
    var cards := m.cards[i := m.cards[i].(flipped := false)][j := m.cards[j].(flipped := false)];
    assert MatchedFlags(cards) == MatchedFlags(m.cards);
  }

  /** The cursor moves of `handleInput`: up and down by a row, clamped to the deck;
      left and right within the row. */
  function Navigate(selected: nat, key: string): (r: nat)
    requires selected < CardCount
    ensures r < CardCount
    ensures key == "ArrowLeft" || key == "ArrowRight" ==> r / GridSize == selected / GridSize
    ensures key == "ArrowUp" ==> r == if selected >= GridSize then selected - GridSize else 0
    ensures key == "ArrowDown" ==> r == if selected + GridSize <= CardCount - 1 then selected + GridSize else CardCount - 1
    ensures key == "ArrowLeft" ==> r == if selected % GridSize > 0 then selected - 1 else selected
    ensures key == "ArrowRight" ==> r == if selected % GridSize < GridSize - 1 then selected + 1 else selected
    ensures key !in {"ArrowUp", "ArrowDown", "ArrowLeft", "ArrowRight"} ==> r == selected
  {
    if key == "ArrowUp" then (if selected - GridSize > 0 then selected - GridSize else 0)
    else if key == "ArrowDown" then
      (if CardCount - 1 < selected + GridSize then CardCount - 1 else selected + GridSize)
    else if key == "ArrowLeft" then (if selected % GridSize > 0 then selected - 1 else selected)
    else if key == "ArrowRight" then
      (if selected % GridSize < GridSize - 1 && selected < CardCount - 1 then selected + 1 else selected)
    else selected
  }

  /** `handleInput(key)`: ignored once complete; arrows move the cursor; Enter and Space flip the card under it. */
  function HandleInput(m: Memory, key: string): (r: Out)
    requires Valid(m)
    ensures Valid(r.st)
    ensures m.complete ==> r == Out(m, [])
    ensures !m.complete && (key == "Enter" || key == " ") ==> r == FlipCard(m, m.selected)
    ensures !m.complete && key != "Enter" && key != " " ==>
      r == Out(m.(selected := Navigate(m.selected, key)), [])
  {
    if m.complete then Out(m, [])
    else if key == "Enter" || key == " " then FlipCard(m, m.selected)
    else Out(m.(selected := Navigate(m.selected, key)), [])
  }

  /** Every flag is counted once, as true or as false. */
  lemma {:induction false} FlagsSplit(f: seq<bool>)
    ensures multiset(f)[true] + multiset(f)[false] == |f|
    decreases |f|
  {
    if |f| > 0 {
      FlagsSplit(f[1..]);
      assert f == [f[0]] + f[1..];
      assert multiset(f) == multiset([f[0]]) + multiset(f[1..]);
      if f[0] {
        assert multiset([f[0]]) == multiset{true};
      } else {
        assert multiset([f[0]]) == multiset{false};
      }
    }
  }

  /** No flag is lowered exactly when all are raised. */
  lemma NoneLowered(f: seq<bool>)
    ensures multiset(f)[false] == 0 <==> forall i :: 0 <= i < |f| ==> f[i]
  {
    if multiset(f)[false] > 0 {
      assert false in multiset(f);
      var k :| 0 <= k < |f| && f[k] == false;
    } else {
      forall i | 0 <= i < |f|
        ensures f[i]
      {
        assert f[i] in multiset(f);
      }
    }
  }

  /** All pairs are found exactly when every card is matched, and never more than all. */
  lemma CompleteIffAllMatched(m: Memory)
    requires Valid(m)
    ensures m.matchedPairs >= TotalPairs <==> forall i :: 0 <= i < CardCount ==> m.cards[i].matched
    ensures m.matchedPairs <= TotalPairs
  {
    FlagsSplit(MatchedFlags(m.cards));
    NoneLowered(MatchedFlags(m.cards));
  }

  /** Finding the two cards of a symbol: flipping both and letting the check run matches them. */
  lemma FlipPairMatches(m: Memory, i: nat, j: nat)
    requires Valid(m) && m.pending == [] && i < CardCount && j < CardCount && i != j
    requires !m.cards[i].matched && !m.cards[j].matched && m.cards[i].symbol == m.cards[j].symbol
    ensures var r1 := FlipCard(m, i); var r2 := FlipCard(r1.st, j);
      && r2.cues == [ScheduleCheck]
      && CheckMatch(r2.st).matchedPairs == m.matchedPairs + 1
      && CheckMatch(r2.st).cards[i].matched && CheckMatch(r2.st).cards[j].matched
  {
    assert !m.cards[i].flipped && !m.cards[j].flipped;
  }

  /** The cursor put on card `i`, and the card flipped. */
  function FlipAt(m: Memory, i: nat): (r: Out)
    requires Valid(m) && i < CardCount
    ensures Valid(r.st) && r.st.complete == m.complete && r.st.matchedPairs == m.matchedPairs
  {
    FlipCard(m.(selected := i), i)
  }

  /** The two cards of a pair flipped, then checked. */
  function FlipPair(m: Memory, i: nat, j: nat): (r: Memory)
    requires Valid(m) && m.pending == [] && i < CardCount && j < CardCount && i != j
    requires !m.cards[i].matched && !m.cards[j].matched && m.cards[i].symbol == m.cards[j].symbol
    ensures Valid(r) && r.pending == [] && r.complete == m.complete && r.matchedPairs == m.matchedPairs + 1
    ensures r.cards == m.cards[i := m.cards[i].(matched := true, flipped := true)][j := m.cards[j].(matched := true, flipped := true)]
  {
    assert !m.cards[i].flipped && !m.cards[j].flipped;
    var m2 := FlipAt(FlipAt(m, i).st, j).st;
    assert |m2.pending| == 2;
    CheckMatch(m2)
  }

  /** Of the two flips of a pair only the second sets the timer. */
  lemma PairTimers(m: Memory, i: nat, j: nat)
    requires Valid(m) && m.pending == [] && i < CardCount && j < CardCount && i != j
    requires !m.cards[i].matched && !m.cards[j].matched && m.cards[i].symbol == m.cards[j].symbol
    ensures FlipAt(m, i).cues == [] && FlipAt(FlipAt(m, i).st, j).cues == [ScheduleCheck]
    ensures |FlipAt(FlipAt(m, i).st, j).st.pending| == 2
    ensures CheckMatch(FlipAt(FlipAt(m, i).st, j).st) == FlipPair(m, i, j)
  {
    assert !m.cards[i].flipped && !m.cards[j].flipped;
  }

  /** The cursor may rest on any card. */
  lemma CursorKeepsValid(m: Memory, x: nat)
    requires Valid(m) && x < CardCount
    ensures Valid(m.(selected := x))
  {
  }

  /** `n` presses of one key, as far as the cursor is concerned. */
  function Moves(selected: nat, key: string, n: nat): (r: nat)
    requires selected < CardCount
    ensures r < CardCount
    decreases n
  {
    if n == 0 then selected else Moves(Navigate(selected, key), key, n - 1)
  }

  /** Up clamps at the top left: `n` presses subtract `n` rows, or stop at card 0. */
  lemma {:induction false} MovesUp(selected: nat, n: nat)
    requires selected < CardCount
    ensures Moves(selected, "ArrowUp", n) == if selected >= GridSize * n then selected - GridSize * n else 0
    decreases n
  {
    if n > 0 {
      MovesUp(Navigate(selected, "ArrowUp"), n - 1);
    }
  }

  /** Down adds a row per press while a row remains below. */
  lemma {:induction false} MovesDown(selected: nat, n: nat)
    requires selected + GridSize * n < CardCount
    ensures Moves(selected, "ArrowDown", n) == selected + GridSize * n
    decreases n
  {
    if n > 0 {
      MovesDown(selected + GridSize, n - 1);
    }
  }

  /** Right moves one column per press while the row continues. */
  lemma {:induction false} MovesRight(selected: nat, n: nat)
    requires selected < CardCount && selected % GridSize + n < GridSize
    ensures Moves(selected, "ArrowRight", n) == selected + n
    decreases n
  {
    if n > 0 {
      MovesRight(selected + 1, n - 1);
    }
  }

  /** Four presses of Up, then `b / 4` of Down and `b % 4` of Right, reach card `b` from anywhere. */
  lemma ReachCard(selected: nat, b: nat)
    requires selected < CardCount && b < CardCount
    ensures Moves(Moves(Moves(selected, "ArrowUp", GridSize), "ArrowDown", b / GridSize), "ArrowRight", b % GridSize) == b
  {
    var row, col := b / GridSize, b % GridSize;
    assert b == GridSize * row + col && row < GridSize && col < GridSize;
    MovesUp(selected, GridSize);
    MovesDown(0, row);
    assert (GridSize * row) % GridSize == 0;
    MovesRight(GridSize * row, col);
  }

  /** The positions of the cards showing symbol `c`. */
  function SymbolPositions(cards: seq<Card>, c: char): (ps: set<nat>)
    ensures forall k: nat :: k in ps <==> k < |cards| && cards[k].symbol == c
  {
    set k | 0 <= k < |cards| && cards[k].symbol == c
  }

  /** Every symbol on the table is on exactly two cards. */
  predicate Paired(cards: seq<Card>)
  {
    forall i :: 0 <= i < |cards| ==> |SymbolPositions(cards, cards[i].symbol)| == 2
  }

  /** The two cards of a symbol are matched together or not at all. */
  predicate MatchedInPairs(cards: seq<Card>)
  {
    forall i, j :: 0 <= i < |cards| && 0 <= j < |cards| && cards[i].symbol == cards[j].symbol ==>
      cards[i].matched == cards[j].matched
  }

  /** In a paired table every card has a twin. */
  lemma TwinOf(cards: seq<Card>, i: nat) returns (j: nat)
    requires Paired(cards) && i < |cards|
    ensures j < |cards| && j != i && cards[j].symbol == cards[i].symbol
  {
    var ps := SymbolPositions(cards, cards[i].symbol);
    assert i in ps;
    assert |ps - {i}| == 1;
    j :| j in ps - {i};
  }

  /** In a paired table a symbol is on no third card. */
  lemma OnlyTwins(cards: seq<Card>, i: nat, j: nat, k: nat)
    requires Paired(cards) && i < |cards| && j < |cards| && k < |cards| && i != j
    requires cards[j].symbol == cards[i].symbol && cards[k].symbol == cards[i].symbol
    ensures k == i || k == j
  {
    var ps := SymbolPositions(cards, cards[i].symbol);
    assert {i, j} <= ps && |ps - {i, j}| == 0;
  }

  /** Every deal pairs its cards, and nothing is matched yet. */
  lemma DeckPaired(draws: seq<real>)
    requires AreDraws(draws) && |draws| == CardCount - 1
    ensures Paired(Deck(draws)) && MatchedInPairs(Deck(draws))
  {
    var d := Deck(draws);
    DeckIsFresh(draws);
    forall i | 0 <= i < CardCount
      ensures |SymbolPositions(d, d[i].symbol)| == 2
    {
      var x := Card(d[i].symbol, false, false);
      DeckHasEachSymbolTwice(draws, d[i].symbol);
      PositionsCount(d, x);
      assert SymbolPositions(d, d[i].symbol) == Positions(d, x);
    }
  }

  /** A game not yet at eight pairs has two unmatched cards of one symbol. */
  lemma UnmatchedPair(m: Memory) returns (i: nat, j: nat)
    requires Valid(m) && Paired(m.cards) && MatchedInPairs(m.cards) && m.matchedPairs < TotalPairs
    ensures i < CardCount && j < CardCount && i != j
    ensures !m.cards[i].matched && !m.cards[j].matched && m.cards[i].symbol == m.cards[j].symbol
  {
    CompleteIffAllMatched(m);
    i :| 0 <= i < CardCount && !m.cards[i].matched;
    j := TwinOf(m.cards, i);
  }

  /** Matching the two cards of one symbol keeps the table paired, and matched in pairs. */
  lemma MatchKeepsPairs(cards: seq<Card>, i: nat, j: nat)
    requires Paired(cards) && MatchedInPairs(cards)
    requires i < |cards| && j < |cards| && i != j && cards[i].symbol == cards[j].symbol
    ensures var r := cards[i := cards[i].(matched := true, flipped := true)][j := cards[j].(matched := true, flipped := true)];
      Paired(r) && MatchedInPairs(r)
  {
    var r := cards[i := cards[i].(matched := true, flipped := true)][j := cards[j].(matched := true, flipped := true)];
    forall c
      ensures SymbolPositions(r, c) == SymbolPositions(cards, c)
    {
    }
    forall k, l | 0 <= k < |r| && 0 <= l < |r| && r[k].symbol == r[l].symbol
      ensures r[k].matched == r[l].matched
    {
      if k == i || k == j {
        OnlyTwins(cards, i, j, l);
      } else if l == i || l == j {
        OnlyTwins(cards, i, j, k);
      }
    }
  }
}

/** The arrow-sequence game `HackingPuzzleGame` of `miniGames.js`: six arrows are shown
    for three seconds, then the player types them; a wrong arrow clears the input. */
module HackingPuzzle {
  import opened Common

  const SequenceLength: nat := 6
  const FrameMillis: nat := 16
  const MaxShowTime: nat := 3000

  datatype Arrow = Up | Down | Left | Right

  /** The `directions` table: `Math.floor(r * 4)` picks one. */
  function ArrowOf(k: nat): Arrow
    requires k < 4
  {
    [Up, Down, Left, Right][k]
  }

  /** `generateSequence(6)` with one draw per arrow. */
  function Generate(draws: seq<real>): (s: seq<Arrow>)
    requires AreDraws(draws) && |draws| == SequenceLength
    ensures |s| == SequenceLength
    ensures forall i :: 0 <= i < SequenceLength ==> s[i] == ArrowOf(RandomIndex(draws[i], 4))
  {
    seq(SequenceLength, i requires 0 <= i < SequenceLength => ArrowOf(RandomIndex(draws[i], 4)))
  }

  datatype Hacking = Hacking(sequence: seq<Arrow>, input: seq<Arrow>, showing: bool, showTimer: nat, complete: bool)

  /** What the typed input always is: a prefix of the sequence, complete only when whole. */
  predicate Valid(h: Hacking)
  {
    && |h.sequence| == SequenceLength
    && |h.input| <= |h.sequence| && h.input == h.sequence[..|h.input|]
    && (h.complete ==> h.input == h.sequence)
    && (!h.showing ==> h.showTimer >= MaxShowTime)
  }

  function Build(draws: seq<real>): (h: Hacking)
    requires AreDraws(draws) && |draws| == SequenceLength
    ensures Valid(h) && h.input == [] && h.showing && h.showTimer == 0 && !h.complete
  {
    Hacking(Generate(draws), [], true, 0, false)
  }

  /** `checkSequence`: the input agrees with the sequence at every position of the sequence. */
  predicate CheckSequence(h: Hacking)
  {
    forall i :: 0 <= i < |h.sequence| ==> i < |h.input| && h.input[i] == h.sequence[i]
  }

  /** The frame update: the show timer grows by one frame until the three seconds are up;
      completion is decided once the input is as long as the sequence. */
  function Update(h: Hacking): (r: Hacking)
    requires Valid(h)
    ensures Valid(r) && r.sequence == h.sequence && r.input == h.input
    ensures r.complete <==> h.complete || |h.input| == |h.sequence|
    ensures h.showing ==> r.showTimer == h.showTimer + FrameMillis && (r.showing <==> r.showTimer < MaxShowTime)
    ensures !h.showing ==> !r.showing && r.showTimer == h.showTimer
  {
    var h1 := if h.showing then
      var t := h.showTimer + FrameMillis;
      h.(showTimer := t, showing := t < MaxShowTime)
    else h;
    if |h1.input| == |h1.sequence| then h1.(complete := CheckSequence(h1)) else h1
  }

  /** The arrow a key stands for, if any. */
  function ArrowKey(key: string): (a: Option<Arrow>)
    ensures a == Some(Up) <==> key == "ArrowUp"
    ensures a == Some(Down) <==> key == "ArrowDown"
    ensures a == Some(Left) <==> key == "ArrowLeft"
    ensures a == Some(Right) <==> key == "ArrowRight"
  {
    if key == "ArrowUp" then Some(Up)
    else if key == "ArrowDown" then Some(Down)
    else if key == "ArrowLeft" then Some(Left)
    else if key == "ArrowRight" then Some(Right)
    else None
  }

  /** One typed arrow: kept when it is the next arrow of the sequence; otherwise the input is cleared. */
  function Type(h: Hacking, a: Arrow): (r: Hacking)
    requires Valid(h) && !h.complete
    ensures Valid(r) && r.(input := h.input) == h
    ensures |h.input| < |h.sequence| && h.sequence[|h.input|] == a ==> r.input == h.input + [a]
    ensures !(|h.input| < |h.sequence| && h.sequence[|h.input|] == a) ==> r.input == []
  {
    var input := h.input + [a];
    var index := |input| - 1;
    if index >= |h.sequence| || input[index] != h.sequence[index] then h.(input := [])
    else
      assert input == h.sequence[..|input|];
      h.(input := input)
  }

  /** `handleInput(key)`: ignored while the sequence shows or once complete; arrows are typed. */
  function HandleInput(h: Hacking, key: string): (r: Hacking)
    requires Valid(h)
    ensures Valid(r) && r.sequence == h.sequence
    ensures h.showing || h.complete || ArrowKey(key).None? ==> r == h
    ensures !h.showing && !h.complete && ArrowKey(key).Some? ==> r == Type(h, ArrowKey(key).value)
  {
    if h.showing || h.complete then h
    else
      match ArrowKey(key)
      case None => h
      case Some(a) => Type(h, a)
  }

  /** Once the input is valid, completion after an update is exactly "all six typed". */
  lemma CompleteIffFullInput(h: Hacking)
    requires Valid(h) && !h.complete
    ensures Update(h).complete <==> |h.input| == SequenceLength
    ensures Update(h).complete ==> Update(h).input == h.sequence
  {
  }

  /** `n` frame updates. */
  function Updates(h: Hacking, n: nat): (r: Hacking)
    requires Valid(h)
    ensures Valid(r) && r.sequence == h.sequence && r.input == h.input
    decreases n
  {
    if n == 0 then h else Updates(Update(h), n - 1)
  }

  /** Frames until the sequence hides: 188 updates of 16 ms pass 3000 ms, and it never shows again. */
  lemma {:induction false} ShowTimerHides(h: Hacking, n: nat)
    requires Valid(h) && h.showing && h.showTimer < MaxShowTime && h.showTimer % FrameMillis == 0
    ensures var r := Updates(h, n);
      && (r.showing <==> h.showTimer + FrameMillis * n < MaxShowTime)
      && r.showTimer == if r.showing then h.showTimer + FrameMillis * n else ((MaxShowTime + FrameMillis - 1) / FrameMillis) * FrameMillis
    decreases n
  {
    if n > 0 {
      var h1 := Update(h);
      if h1.showing {
        ShowTimerHides(h1, n - 1);
      } else {
        assert h1.showTimer == 3008;
        HiddenStaysHidden(h1, n - 1);
      }
    }
  }

  /** Once hidden, the sequence stays hidden and the timer stops. */
  lemma {:induction false} HiddenStaysHidden(h: Hacking, n: nat)
    requires Valid(h) && !h.showing
    ensures !Updates(h, n).showing && Updates(h, n).showTimer == h.showTimer
    decreases n
  {
    if n > 0 {
      HiddenStaysHidden(Update(h), n - 1);
    }
  }

  /** Typing keys one by one. */
  function Keys(h: Hacking, keys: seq<string>): (r: Hacking)
    requires Valid(h)
    ensures Valid(r) && r.sequence == h.sequence
    decreases |keys|
  {
    if |keys| == 0 then h else Keys(HandleInput(h, keys[0]), keys[1..])
  }

  /** The key name of an arrow. */
  function KeyName(a: Arrow): (key: string)
    ensures ArrowKey(key) == Some(a)
  {
    match a
    case Up => "ArrowUp"
    case Down => "ArrowDown"
    case Left => "ArrowLeft"
    case Right => "ArrowRight"
  }

  /** Typing the rest of the sequence after the show, from a correct prefix, completes the input. */
  lemma {:induction false} TypingTheRestCompletes(h: Hacking)
    requires Valid(h) && !h.showing && !h.complete
    ensures var rest := h.sequence[|h.input|..];
      Keys(h, seq(|rest|, i requires 0 <= i < |rest| => KeyName(rest[i]))).input == h.sequence
    decreases |h.sequence| - |h.input|
  {
    var rest := h.sequence[|h.input|..];
    var keys := seq(|rest|, i requires 0 <= i < |rest| => KeyName(rest[i]));
    if |rest| == 0 {
      assert h.input == h.sequence;
    } else {
      var h1 := HandleInput(h, keys[0]);
      assert h1 == Type(h, rest[0]);
      assert h1.input == h.input + [rest[0]];
      var rest1 := h1.sequence[|h1.input|..];
      assert rest1 == rest[1..];
      assert keys[1..] == seq(|rest1|, i requires 0 <= i < |rest1| => KeyName(rest1[i]));
      TypingTheRestCompletes(h1);
    }
  }
}

/** `MiniGameSystem`: which game is running, whether the system is active, and
    whether completion was seen by an update. */
module GameSystem {
  import opened Common
  import MemoryPuzzle
  import HackingPuzzle

  datatype Game = Memory(m: MemoryPuzzle.Memory) | Hacking(h: HackingPuzzle.Hacking)

  predicate GameValid(g: Game)
  {
    match g
    case Memory(m) => MemoryPuzzle.Valid(m)
    case Hacking(h) => HackingPuzzle.Valid(h)
  }

  function GameComplete(g: Game): bool
  {
    match g
    case Memory(m) => m.complete
    case Hacking(h) => h.complete
  }

  datatype System = System(game: Option<Game>, active: bool, complete: bool)

  predicate Valid(s: System)
  {
    s.game.Some? ==> GameValid(s.game.value)
  }

  const Initial: System := System(None, false, false)

  /** The random inputs a fresh game needs. */
  datatype Draws = Draws(deck: seq<real>, arrows: seq<real>)

  predicate DrawsFit(d: Draws)
  {
    && AreDraws(d.deck) && |d.deck| == MemoryPuzzle.CardCount - 1
    && AreDraws(d.arrows) && |d.arrows| == HackingPuzzle.SequenceLength
  }

  /** `startGame(type)`: the two known types start a fresh game; any other type
      deactivates the system and leaves whatever game was there in place. */
  function StartGame(s: System, gameType: string, d: Draws): (r: System)
    requires Valid(s) && DrawsFit(d)
    ensures Valid(r) && !r.complete
    ensures r.active <==> gameType == "memory_puzzle" || gameType == "hacking_puzzle"
    ensures gameType == "memory_puzzle" ==> r.game == Some(Memory(MemoryPuzzle.Build(d.deck)))
    ensures gameType == "hacking_puzzle" ==> r.game == Some(Hacking(HackingPuzzle.Build(d.arrows)))
    ensures !r.active ==> r.game == s.game
  {
    if gameType == "memory_puzzle" then System(Some(Memory(MemoryPuzzle.Build(d.deck))), true, false)
    else if gameType == "hacking_puzzle" then System(Some(Hacking(HackingPuzzle.Build(d.arrows))), true, false)
    else s.(active := false, complete := false)
  }

  /** `update()`: only an active system with a game updates it, and notes completion. */
  function Update(s: System): (r: System)
    requires Valid(s)
    ensures Valid(r) && r.active == s.active && (s.complete ==> r.complete)
    ensures !(s.active && s.game.Some?) ==> r == s
    ensures s.active && s.game.Some? && s.game.value.Memory? ==>
      r.game == Some(Memory(MemoryPuzzle.Update(s.game.value.m)))
    ensures s.active && s.game.Some? && s.game.value.Hacking? ==>
      r.game == Some(Hacking(HackingPuzzle.Update(s.game.value.h)))
    ensures s.active && s.game.Some? ==> r.game.Some? && (r.complete <==> s.complete || GameComplete(r.game.value))
  {
    if s.active && s.game.Some? then
      var g := match s.game.value
        case Memory(m) => Memory(MemoryPuzzle.Update(m))
        case Hacking(h) => Hacking(HackingPuzzle.Update(h));
      System(Some(g), s.active, s.complete || GameComplete(g))
    else s
  }

  /** A system step: the new state and the `checkMatch` timers it set. */
  datatype Out = Out(st: System, cues: seq<MemoryPuzzle.Cue>)

  /** `handleInput(key)`: forwarded to the game only while active; a flip of the
      memory game may set its match timer, which is passed on as a cue. */
  function HandleInput(s: System, key: string): (r: Out)
    requires Valid(s)
    ensures Valid(r.st) && r.st.active == s.active && r.st.complete == s.complete && r.st.game.Some? == s.game.Some?
    ensures !(s.active && s.game.Some?) ==> r == Out(s, [])
    ensures s.active && s.game.Some? && s.game.value.Memory? ==>
      var o := MemoryPuzzle.HandleInput(s.game.value.m, key);
      r == Out(s.(game := Some(Memory(o.st))), o.cues)
    ensures s.active && s.game.Some? && s.game.value.Hacking? ==>
      r == Out(s.(game := Some(Hacking(HackingPuzzle.HandleInput(s.game.value.h, key)))), [])
  {
    if s.active && s.game.Some? then
      match s.game.value
      case Memory(m) =>
        var o := MemoryPuzzle.HandleInput(m, key);
        Out(s.(game := Some(Memory(o.st))), o.cues)
      case Hacking(h) => Out(s.(game := Some(Hacking(HackingPuzzle.HandleInput(h, key)))), [])
    else Out(s, [])
  }

  /** The 800 ms timer `flipCard` set fires `checkMatch` on its own game, active or
      not. It is delivered to the current game while that game has two cards waiting,
      which is exactly while a timer it set has not yet fired. */
  function CheckMatch(s: System): (r: System)
    requires Valid(s)
    ensures Valid(r) && r.active == s.active && r.complete == s.complete
    ensures s.game.Some? && s.game.value.Memory? && |s.game.value.m.pending| == 2 ==>
      r.game == Some(Memory(MemoryPuzzle.CheckMatch(s.game.value.m)))
    ensures !(s.game.Some? && s.game.value.Memory? && |s.game.value.m.pending| == 2) ==> r == s
  {
    if s.game.Some? && s.game.value.Memory? && |s.game.value.m.pending| == 2 then
      s.(game := Some(Memory(MemoryPuzzle.CheckMatch(s.game.value.m))))
    else s
  }

  /** What the system sees: a frame `update()`, a key, and a fired match timer. */
  datatype Event = Tick | Key(key: string) | Check

  /** One event. States outside `Valid` never arise (`StartGame` sets it up and every
      handler keeps it); they are left alone so that a step is always defined. */
  function Step(s: System, ev: Event): (r: Out)
    ensures Valid(s) ==> Valid(r.st)
    ensures r.st.active == s.active && (s.complete ==> r.st.complete)
    ensures !ev.Key? ==> r.cues == []
  {
    if !Valid(s) then Out(s, [])
    else
      match ev
      case Tick => Out(Update(s), [])
      case Key(k) => HandleInput(s, k)
      case Check => Out(CheckMatch(s), [])
  }

  /** Events applied in order by `step`, collecting the timers set along the way. */
  function Replay(step: (System, Event) -> Out, s: System, evs: seq<Event>): (r: Out)
    decreases |evs|
  {
    if evs == [] then Out(s, [])
    else
      var o := step(s, evs[0]);
      var rest := Replay(step, o.st, evs[1..]);
      Out(rest.st, o.cues + rest.cues)
  }

  /** Replaying two stretches of events one after the other. */
  lemma {:induction false} ReplayAppend(step: (System, Event) -> Out, s: System, a: seq<Event>, b: seq<Event>)
    ensures var x := Replay(step, s, a); var y := Replay(step, x.st, b);
      Replay(step, s, a + b) == Out(y.st, x.cues + y.cues)
    decreases |a|
  {
    if a == [] {
      assert a + b == b;
    } else {
      assert (a + b)[0] == a[0] && (a + b)[1..] == a[1..] + b;
      ReplayAppend(step, step(s, a[0]).st, a[1..], b);
    }
  }

  /** A run of the system. */
  function Run(s: System, evs: seq<Event>): (r: Out)
  {
    Replay(Step, s, evs)
  }

  /** A run keeps the invariant, never changes whether the system is active, and never
      forgets a completion it has seen. */
  lemma {:induction false} RunKeeps(s: System, evs: seq<Event>)
    ensures Valid(s) ==> Valid(Run(s, evs).st)
    ensures Run(s, evs).st.active == s.active && (s.complete ==> Run(s, evs).st.complete)
    decreases |evs|
  {
    if evs != [] {
      RunKeeps(Step(s, evs[0]).st, evs[1..]);
    }
  }

  /** Running two stretches of events one after the other. */
  lemma RunAppend(s: System, a: seq<Event>, b: seq<Event>)
    ensures Run(s, a + b) == Out(Run(Run(s, a).st, b).st, Run(s, a).cues + Run(Run(s, a).st, b).cues)
  {
    ReplayAppend(Step, s, a, b);
  }

  /** A run of one event is that event's step. */
  lemma RunOne(s: System, ev: Event)
    ensures Run(s, [ev]) == Step(s, ev)
  {
    assert [ev][1..] == [];
    var o := Step(s, ev);
    assert Replay(Step, o.st, []) == Out(o.st, []);
    assert o.cues + [] == o.cues;
  }

  /** `RunAppend` for stretches whose outcomes are already known. */
  lemma RunThen(s: System, a: seq<Event>, b: seq<Event>, s1: System, s2: System, c1: seq<MemoryPuzzle.Cue>, c2: seq<MemoryPuzzle.Cue>)
    requires Run(s, a) == Out(s1, c1) && Run(s1, b) == Out(s2, c2)
    ensures Run(s, a + b) == Out(s2, c1 + c2)
  {
    RunAppend(s, a, b);
  }

  /** `n` presses of one key. */
  function Presses(key: string, n: nat): (evs: seq<Event>)
    ensures |evs| == n && forall i :: 0 <= i < n ==> evs[i] == Key(key)
  {
    seq(n, _ => Key(key))
  }

  /** An unfinished memory game is the system's active game. */
  predicate Playing(s: System, m: MemoryPuzzle.Memory)
  {
    s.active && s.game == Some(Memory(m)) && MemoryPuzzle.Valid(m) && !m.complete
  }

  /** One arrow press in an unfinished memory game only moves its cursor. */
  lemma ArrowOnlyMoves(s: System, m: MemoryPuzzle.Memory, key: string)
    requires Playing(s, m)
    requires key == "ArrowUp" || key == "ArrowDown" || key == "ArrowRight"
    ensures Step(s, Key(key)) == Out(s.(game := Some(Memory(m.(selected := MemoryPuzzle.Navigate(m.selected, key))))), [])
  {
  }

  /** Arrow presses in an unfinished memory game only move its cursor. */
  lemma {:induction false} ArrowsOnlyMove(s: System, m: MemoryPuzzle.Memory, key: string, n: nat)
    requires Playing(s, m)
    requires key == "ArrowUp" || key == "ArrowDown" || key == "ArrowRight"
    ensures Run(s, Presses(key, n)) == Out(s.(game := Some(Memory(m.(selected := MemoryPuzzle.Moves(m.selected, key, n))))), [])
    decreases n
  {
    if n > 0 {
      var m1 := m.(selected := MemoryPuzzle.Navigate(m.selected, key));
      var s1 := s.(game := Some(Memory(m1)));
      assert Presses(key, n)[1..] == Presses(key, n - 1);
      MemoryPuzzle.CursorKeepsValid(m, m1.selected);
      ArrowOnlyMoves(s, m, key);
      ArrowsOnlyMove(s1, m1, key, n - 1);
    }
  }

  /** The presses that take the cursor to card `b` from anywhere: to the top left, down, then right. */
  function GoTo(b: nat): seq<Event>
  {
    Presses("ArrowUp", MemoryPuzzle.GridSize) + Presses("ArrowDown", b / MemoryPuzzle.GridSize)
      + Presses("ArrowRight", b % MemoryPuzzle.GridSize)
  }

  lemma GoToCard(s: System, m: MemoryPuzzle.Memory, b: nat)
    requires Playing(s, m) && b < MemoryPuzzle.CardCount
    ensures Run(s, GoTo(b)) == Out(s.(game := Some(Memory(m.(selected := b)))), [])
  {
    var up, down, right := Presses("ArrowUp", 4), Presses("ArrowDown", b / 4), Presses("ArrowRight", b % 4);
    var m1 := m.(selected := MemoryPuzzle.Moves(m.selected, "ArrowUp", 4));
    var m2 := m1.(selected := MemoryPuzzle.Moves(m1.selected, "ArrowDown", b / 4));
    var m3 := m2.(selected := MemoryPuzzle.Moves(m2.selected, "ArrowRight", b % 4));
    var s1, s2, s3 := s.(game := Some(Memory(m1))), s.(game := Some(Memory(m2))), s.(game := Some(Memory(m3)));
    MemoryPuzzle.CursorKeepsValid(m, m1.selected);
    MemoryPuzzle.CursorKeepsValid(m, m2.selected);
    ArrowsOnlyMove(s, m, "ArrowUp", 4);
    ArrowsOnlyMove(s1, m1, "ArrowDown", b / 4);
    ArrowsOnlyMove(s2, m2, "ArrowRight", b % 4);
    RunAppend(s, up, down);
    RunAppend(s, up + down, right);
    MemoryPuzzle.ReachCard(m.selected, b);
  }

  /** Going to card `b` and pressing Enter. */
  function FlipAt(b: nat): seq<Event>
  {
    GoTo(b) + [Key("Enter")]
  }

  /** Enter in an unfinished memory game flips the card under the cursor. */
  lemma EnterFlips(s: System, m: MemoryPuzzle.Memory, b: nat)
    requires MemoryPuzzle.Valid(m) && !m.complete && b < MemoryPuzzle.CardCount
    requires Valid(s) && s.active && s.game == Some(Memory(m.(selected := b)))
    ensures var o := MemoryPuzzle.FlipAt(m, b);
      Run(s, [Key("Enter")]) == Out(s.(game := Some(Memory(o.st))), o.cues)
  {
    assert [Key("Enter")][1..] == [];
  }

  /** Going to a card and pressing Enter flips it, as `flipCard` does. */
  lemma FlipAtFlips(s: System, m: MemoryPuzzle.Memory, b: nat)
    requires Playing(s, m) && b < MemoryPuzzle.CardCount
    ensures var o := MemoryPuzzle.FlipAt(m, b);
      Run(s, FlipAt(b)) == Out(s.(game := Some(Memory(o.st))), o.cues)
  {
    var s1 := s.(game := Some(Memory(m.(selected := b))));
    var o := MemoryPuzzle.FlipAt(m, b);
    GoToCard(s, m, b);
    EnterFlips(s1, m, b);
    RunThen(s, GoTo(b), [Key("Enter")], s1, s.(game := Some(Memory(o.st))), [], o.cues);
  }

  /** Finding one pair: flip card `i`, flip card `j`, and let the timer fire. */
  function FindPair(i: nat, j: nat): seq<Event>
  {
    FlipAt(i) + FlipAt(j) + [Check]
  }

  /** A pair is found with a single fired timer. */
  lemma OneCheckPerPair(i: nat, j: nat)
    ensures Count(FindPair(i, j), Check) == 1
  {
    var flips := FlipAt(i) + FlipAt(j);
    assert forall k :: 0 <= k < |flips| ==> flips[k].Key?;
    assert Check !in flips;
    assert FindPair(i, j) == flips + [Check];
  }

  /** Flipping the two cards of a pair sets one timer and leaves both waiting. */
  lemma TwoFlips(s: System, m: MemoryPuzzle.Memory, i: nat, j: nat)
    requires Playing(s, m) && m.pending == []
    requires i < MemoryPuzzle.CardCount && j < MemoryPuzzle.CardCount && i != j
    requires !m.cards[i].matched && !m.cards[j].matched && m.cards[i].symbol == m.cards[j].symbol
    ensures Run(s, FlipAt(i) + FlipAt(j))
      == Out(s.(game := Some(Memory(MemoryPuzzle.FlipAt(MemoryPuzzle.FlipAt(m, i).st, j).st))), [MemoryPuzzle.ScheduleCheck])
  {
    MemoryPuzzle.PairTimers(m, i, j);
    var m1 := MemoryPuzzle.FlipAt(m, i).st;
    var m2 := MemoryPuzzle.FlipAt(m1, j).st;
    FlipAtFlips(s, m, i);
    FlipAtFlips(s.(game := Some(Memory(m1))), m1, j);
    RunThen(s, FlipAt(i), FlipAt(j), s.(game := Some(Memory(m1))), s.(game := Some(Memory(m2))), [], [MemoryPuzzle.ScheduleCheck]);
  }

  /** A fired timer runs `checkMatch` on the game that has two cards waiting. */
  lemma CheckFires(s: System, m: MemoryPuzzle.Memory)
    requires Valid(s) && s.game == Some(Memory(m)) && |m.pending| == 2
    ensures Run(s, [Check]) == Out(s.(game := Some(Memory(MemoryPuzzle.CheckMatch(m)))), [])
  {
    assert [Check][1..] == [];
  }

  /** Finding two unmatched cards of one symbol sets one timer, and its check matches them. */
  lemma PairFound(s: System, m: MemoryPuzzle.Memory, i: nat, j: nat)
    requires Playing(s, m) && m.pending == []
    requires i < MemoryPuzzle.CardCount && j < MemoryPuzzle.CardCount && i != j
    requires !m.cards[i].matched && !m.cards[j].matched && m.cards[i].symbol == m.cards[j].symbol
    ensures Run(s, FindPair(i, j)) == Out(s.(game := Some(Memory(MemoryPuzzle.FlipPair(m, i, j)))), [MemoryPuzzle.ScheduleCheck])
  {
    MemoryPuzzle.PairTimers(m, i, j);
    var m2 := MemoryPuzzle.FlipAt(MemoryPuzzle.FlipAt(m, i).st, j).st;
    var s2 := s.(game := Some(Memory(m2)));
    var s3 := s.(game := Some(Memory(MemoryPuzzle.FlipPair(m, i, j))));
    TwoFlips(s, m, i, j);
    CheckFires(s2, m2);
    RunThen(s, FlipAt(i) + FlipAt(j), [Check], s2, s3, [MemoryPuzzle.ScheduleCheck], []);
  }

  /** From an unfinished memory game with nothing waiting, pairs can be found until all
      eight are matched; every check delivered was set by the flip before it. */
  lemma {:induction false} FindAllPairs(s: System, m: MemoryPuzzle.Memory) returns (evs: seq<Event>)
    requires Playing(s, m) && m.pending == []
    requires MemoryPuzzle.Paired(m.cards) && MemoryPuzzle.MatchedInPairs(m.cards)
    ensures var r := Run(s, evs);
      && Valid(r.st) && r.st.active && r.st.game.Some? && r.st.game.value.Memory?
      && r.st.game.value.m.matchedPairs >= MemoryPuzzle.TotalPairs
      && |r.cues| == Count(evs, Check)
    decreases MemoryPuzzle.TotalPairs - m.matchedPairs
  {
    MemoryPuzzle.CompleteIffAllMatched(m);
    if m.matchedPairs >= MemoryPuzzle.TotalPairs {
      evs := [];
    } else {
      var i, j := MemoryPuzzle.UnmatchedPair(m);
      PairFound(s, m, i, j);
      var m1 := MemoryPuzzle.FlipPair(m, i, j);
      var s1 := s.(game := Some(Memory(m1)));
      MemoryPuzzle.MatchKeepsPairs(m.cards, i, j);
      var rest := FindAllPairs(s1, m1);
      evs := FindPair(i, j) + rest;
      var r := Run(s1, rest);
      RunThen(s, FindPair(i, j), rest, s1, r.st, [MemoryPuzzle.ScheduleCheck], r.cues);
      OneCheckPerPair(i, j);
      assert multiset(evs) == multiset(FindPair(i, j)) + multiset(rest);
    }
  }

  /** A memory game started through the system can be won: for every deal there is a
      run of key presses and fired match timers, one timer per check, after which the
      system has seen the game complete. */
  lemma MemoryCanComplete(s: System, d: Draws) returns (evs: seq<Event>)
    requires Valid(s) && DrawsFit(d)
    ensures var r := Run(StartGame(s, "memory_puzzle", d), evs);
      r.st.complete && |r.cues| == Count(evs, Check)
  {
    var s0 := StartGame(s, "memory_puzzle", d);
    var m := MemoryPuzzle.Build(d.deck);
    MemoryPuzzle.DeckPaired(d.deck);
    var pairs := FindAllPairs(s0, m);
    evs := pairs + [Tick];
    var r := Run(s0, pairs);
    RunAppend(s0, pairs, [Tick]);
    RunOne(r.st, Tick);
    assert Step(r.st, Tick).st.complete;
    assert Count(evs, Check) == Count(pairs, Check) by {
      assert multiset(evs) == multiset(pairs) + multiset{Tick};
    }
  }

  /** `endGame()`: deactivates, drops the game, and reports whether it was complete. */
  function EndGame(s: System): (r: (System, bool))
    ensures !r.0.active && r.0.game.None? && r.0.complete == s.complete
    ensures r.1 <==> s.game.Some? && GameComplete(s.game.value)
  {
    (s.(active := false, game := None), s.game.Some? && GameComplete(s.game.value))
  }

  /** A known type started after an unknown one still runs; an unknown type after a
      finished game leaves that game's result to `endGame`. */
  lemma UnknownTypeKeepsOldGame(s: System, d: Draws)
    requires Valid(s) && DrawsFit(d) && s.game.Some?
    ensures var r := StartGame(s, "pipes", d);
      !r.active && EndGame(r).1 == GameComplete(s.game.value)
  {
  }

  /** Input does not reach an inactive system, and ending right after start reports failure. */
  lemma FreshGameEndsIncomplete(s: System, gameType: string, d: Draws)
    requires Valid(s) && DrawsFit(d) && (gameType == "memory_puzzle" || gameType == "hacking_puzzle")
    ensures !EndGame(StartGame(s, gameType, d)).1
  {
  }
}
