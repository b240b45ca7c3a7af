/** The pipe-rotation minigame of `Minigames.js` (`buildPipes`, reached through the
    `memory_puzzle` type): a 3×3 board of pipe tiles; clicking a tile rotates it,
    and the circuit is restored when power flows from the left middle cell to
    the right middle cell through connectors that face each other. */
module Pipes {
  import opened Common

  const Size: int := 3

  datatype Dir = N | E | S | W

  function Opposite(d: Dir): Dir
  {
    match d
    case N => S
    case E => W
    case S => N
    case W => E
  }

  datatype Cell = Cell(x: int, y: int)

  /** The cell one step in direction `d`; `y` grows downwards. */
  function Neighbor(c: Cell, d: Dir): Cell
  {
    match d
    case N => Cell(c.x, c.y - 1)
    case E => Cell(c.x + 1, c.y)
    case S => Cell(c.x, c.y + 1)
    case W => Cell(c.x - 1, c.y)
  }

  /** Going one way and coming back the opposite way returns to the start. */
  lemma OppositeUndoes(c: Cell, d: Dir)
    ensures Opposite(Opposite(d)) == d && Opposite(d) != d
    ensures Neighbor(Neighbor(c, d), Opposite(d)) == c
  {
  }

  datatype TileKind = Straight | Elbow | Tee | Cross

  /** The connector sets of each kind, one per orientation, in the order rotation steps through them. */
  function Variants(k: TileKind): (vs: seq<seq<Dir>>)
    ensures |vs| > 0
  {
    match k
    case Straight => [[N, S], [E, W]]
    case Elbow => [[N, E], [E, S], [S, W], [W, N]]
    case Tee => [[N, E, S], [E, S, W], [S, W, N], [W, N, E]]
    case Cross => [[N, E, S, W]]
  }

  datatype Tile = Tile(kind: TileKind, rot: nat)

  /** `connectorsFor`: the orientation selected by the rotation counter, taken modulo
      the number of orientations of the kind (spelled out per kind). */
  function Connectors(t: Tile): (ds: seq<Dir>)
    ensures ds == Variants(t.kind)[t.rot % |Variants(t.kind)|]
  {
    match t.kind
    case Straight => Variants(Straight)[t.rot % 2]
    case Elbow => Variants(Elbow)[t.rot % 4]
    case Tee => Variants(Tee)[t.rot % 4]
    case Cross => Variants(Cross)[0]
  }

  /** A quarter turn clockwise. */
  function Clockwise(d: Dir): Dir
  {
    match d
    case N => E
    case E => S
    case S => W
    case W => N
  }

  /** `onRotate`'s step of the rotation counter, wrapping at the number of orientations. */
  function RotateTile(t: Tile): (r: Tile)
    ensures r.kind == t.kind && r.rot < |Variants(t.kind)|
  {
    t.(rot := (t.rot + 1) % |Variants(t.kind)|)
  }

  /** Every connector of `ds` turned a quarter turn clockwise. */
  function Turned(ds: seq<Dir>): (r: seq<Dir>)
    ensures |r| == |ds| && forall i :: 0 <= i < |ds| ==> r[i] == Clockwise(ds[i])
  {
    seq(|ds|, i requires 0 <= i < |ds| => Clockwise(ds[i]))
  }

  /** Each orientation of a kind is the previous one turned clockwise. */
  lemma NextVariantTurned(k: TileKind, i: nat)
    requires i < |Variants(k)|
    ensures forall d :: d in Variants(k)[(i + 1) % |Variants(k)|] <==> d in Turned(Variants(k)[i])
  {
    match k
    case Straight =>
      if i == 0 {
        assert Turned([N, S]) == [E, W];
      } else {
        assert Turned([E, W]) == [S, N];
      }
    case Elbow =>
      if i == 0 {
        assert Turned([N, E]) == [E, S];
      } else if i == 1 {
        assert Turned([E, S]) == [S, W];
      } else if i == 2 {
        assert Turned([S, W]) == [W, N];
      } else {
        assert Turned([W, N]) == [N, E];
      }
    case Tee =>
      if i == 0 {
        assert Turned([N, E, S]) == [E, S, W];
      } else if i == 1 {
        assert Turned([E, S, W]) == [S, W, N];
      } else if i == 2 {
        assert Turned([S, W, N]) == [W, N, E];
      } else {
        assert Turned([W, N, E]) == [N, E, S];
      }
    case Cross =>
      assert Turned([N, E, S, W]) == [E, S, W, N];
  }

  /** Rotating a tile turns its connectors a quarter turn clockwise (as a set of
      directions; the list order may differ). */
  lemma RotateTurnsClockwise(t: Tile)
    ensures forall d :: d in Connectors(RotateTile(t)) <==> d in Turned(Connectors(t))
  {
    var n := |Variants(t.kind)|;
    var i := t.rot % n;
    var r := RotateTile(t);
    match t.kind {
    case Straight =>
      assert r.rot % 2 == (i + 1) % 2;
      assert Connectors(r) == Variants(Straight)[(i + 1) % 2];
    case Elbow =>
      assert r.rot % 4 == (i + 1) % 4;
      assert Connectors(r) == Variants(Elbow)[(i + 1) % 4];
    case Tee =>
      assert r.rot % 4 == (i + 1) % 4;
      assert Connectors(r) == Variants(Tee)[(i + 1) % 4];
    case Cross =>
      assert i == 0 && Connectors(r) == Variants(Cross)[0];
    }
    assert Connectors(t) == Variants(t.kind)[i];
    NextVariantTurned(t.kind, i);
  }

  type Board = seq<seq<Tile>>

  predicate Shaped(b: Board)
  {
    |b| == Size && forall y :: 0 <= y < Size ==> |b[y]| == Size
  }

  predicate InBounds(c: Cell)
  {
    0 <= c.x < Size && 0 <= c.y < Size
  }

  function At(b: Board, c: Cell): Tile
    requires Shaped(b) && InBounds(c)
  {
    b[c.y][c.x]
  }

  /** The connectors of every tile, as `connectorsFor` computes them on each visit. */
  type Grid = seq<seq<seq<Dir>>>

  predicate GridShaped(g: Grid)
  {
    |g| == Size && forall y :: 0 <= y < Size ==> |g[y]| == Size
  }

  function ConnectorGrid(b: Board): (g: Grid)
    requires Shaped(b)
    ensures GridShaped(g)
    ensures forall c :: InBounds(c) ==> g[c.y][c.x] == Connectors(At(b, c))
  {
    seq(Size, y requires 0 <= y < Size => seq(Size, x requires 0 <= x < Size => Connectors(b[y][x])))
  }

  /** Power passes from `c` through its connector `d` into the neighbour, which must connect back. */
  predicate Linked(g: Grid, c: Cell, d: Dir)
    requires GridShaped(g)
  {
    var n := Neighbor(c, d);
    InBounds(c) && d in g[c.y][c.x] && InBounds(n) && Opposite(d) in g[n.y][n.x]
  }

  /** Links run both ways. */
  lemma LinkedSymmetric(g: Grid, c: Cell, d: Dir)
    requires GridShaped(g) && Linked(g, c, d)
    ensures Linked(g, Neighbor(c, d), Opposite(d)) && Neighbor(Neighbor(c, d), Opposite(d)) == c
  {
    OppositeUndoes(c, d);
  }

  const Source: Cell := Cell(0, 1)
  const Sink: Cell := Cell(2, 1)

  /** A set of cells that power cannot leave. */
  ghost predicate Closed(g: Grid, s: set<Cell>)
    requires GridShaped(g)
  {
    forall c, d {:trigger Linked(g, c, d)} :: c in s && Linked(g, c, d) ==> Neighbor(c, d) in s
  }

  /** Every closed set of cells that holds the source holds the sink,
      i.e. the sink is in the least set reachable from the source. */
  ghost predicate Reaches(g: Grid)
    requires GridShaped(g)
  {
    forall s :: Source in s && Closed(g, s) ==> Sink in s
  }

  /** The circuit is restored. */
  ghost predicate Connected(b: Board)
    requires Shaped(b)
  {
    Reaches(ConnectorGrid(b))
  }

  function AllCells(): (cs: set<Cell>)
    ensures forall c :: c in cs <==> InBounds(c)
  {
    set x, y | 0 <= x < Size && 0 <= y < Size :: Cell(x, y)
  }

  /** Every closed set holding the source holds all of `seen`. */
  ghost predicate Sound(g: Grid, seen: set<Cell>)
    requires GridShaped(g)
  {
    forall s :: Source in s && Closed(g, s) ==> seen <= s
  }

  /** Following connector `d` of `c`: enqueue the neighbour if it connects back and is new. */
  method Visit(g: Grid, c: Cell, d: Dir, seen: set<Cell>, q: seq<Cell>) returns (seen': set<Cell>, q': seq<Cell>)
    requires GridShaped(g) && InBounds(c) && c in seen && seen <= AllCells()
    requires d in g[c.y][c.x]
    requires Sound(g, seen)
    ensures seen <= seen' <= AllCells() && Sound(g, seen')
    ensures Linked(g, c, d) ==> Neighbor(c, d) in seen'
    ensures (seen' == seen && q' == q) || (exists n :: n !in seen && seen' == seen + {n} && q' == q + [n])
  {
    var n := Neighbor(c, d);
    if InBounds(n) && Opposite(d) in g[n.y][n.x] && n !in seen {
      assert Linked(g, c, d);
      forall s | Source in s && Closed(g, s)
        ensures n in s
      {
        assert c in s;
      }
      return seen + {n}, q + [n];
    }
    return seen, q;
  }

  /** One round of the search: enqueue every linked neighbour of `c` not seen yet. */
  method Expand(g: Grid, c: Cell, seen: set<Cell>, q: seq<Cell>) returns (seen': set<Cell>, q': seq<Cell>)
    requires GridShaped(g) && InBounds(c) && c in seen && seen <= AllCells()
    requires Sound(g, seen)
    ensures seen <= seen' <= AllCells() && Sound(g, seen')
    ensures |q'| >= |q| && q'[..|q|] == q
    ensures forall x :: x in seen' && x !in seen ==> x in q'[|q|..]
    ensures forall i :: |q| <= i < |q'| ==> q'[i] in seen'
    ensures forall d :: Linked(g, c, d) ==> Neighbor(c, d) in seen'
    ensures seen' == seen ==> q' == q
  {
    var conns := g[c.y][c.x];
    seen', q' := seen, q;
    var k := 0;
    while k < |conns|
      invariant 0 <= k <= |conns|
      invariant seen <= seen' <= AllCells() && Sound(g, seen')
      invariant |q'| >= |q| && q'[..|q|] == q
      invariant forall x :: x in seen' && x !in seen ==> x in q'[|q|..]
      invariant forall i :: |q| <= i < |q'| ==> q'[i] in seen'
      invariant forall j :: 0 <= j < k && Linked(g, c, conns[j]) ==> Neighbor(c, conns[j]) in seen'
      invariant seen' == seen ==> q' == q
    {
      var seen1, q1 := Visit(g, c, conns[k], seen', q');
      if seen1 != seen' {
        var n :| n !in seen' && seen1 == seen' + {n} && q1 == q' + [n];
        assert q1[..|q|] == q by { assert q1[..|q|] == q'[..|q|]; }
        assert q1[|q|..] == q'[|q|..] + [n];
      }
      forall j | 0 <= j < k + 1 && Linked(g, c, conns[j])
        ensures Neighbor(c, conns[j]) in seen1
      {
        if j < k {
          assert Neighbor(c, conns[j]) in seen';
        }
      }
      seen', q' := seen1, q1;
      k := k + 1;
    }
  }

  /** What the search keeps true: `seen` is reachable, the queue holds seen cells,
      and every seen cell that has left the queue has all its linked neighbours seen. */
  ghost predicate Searching(g: Grid, seen: set<Cell>, q: seq<Cell>)
    requires GridShaped(g)
  {
    && seen <= AllCells() && Source in seen && Sound(g, seen)
    && (forall i :: 0 <= i < |q| ==> q[i] in seen)
    && (Sink in seen ==> Sink in q)
    && (forall c, d {:trigger Linked(g, c, d)} :: c in seen && c !in q && Linked(g, c, d) ==> Neighbor(c, d) in seen)
  }

  /** One dequeue of the search, for a head that is not the sink. */
  method Round(g: Grid, seen: set<Cell>, q: seq<Cell>) returns (seen': set<Cell>, q': seq<Cell>)
    requires GridShaped(g) && Searching(g, seen, q) && |q| > 0 && q[0] != Sink
    ensures Searching(g, seen', q')
    ensures seen <= seen' && (seen' == seen ==> |q'| < |q|)
  {
    var c := q[0];
    var rest := q[1..];
    seen', q' := Expand(g, c, seen, rest);
    forall c', d | c' in seen' && c' !in q' && Linked(g, c', d)
      ensures Neighbor(c', d) in seen'
    {
      if c' != c {
        assert c' !in q;
      }
    }
    assert Sink in seen' ==> Sink in q' by {
      if Sink in seen {
        assert Sink in rest;
        var i :| 0 <= i < |rest| && rest[i] == Sink;
        assert q'[..|rest|][i] == Sink;
      }
    }
    forall i | 0 <= i < |q'|
      ensures q'[i] in seen'
    {
      if i < |rest| {
        assert q'[..|rest|][i] == rest[i] && rest[i] == q[i + 1];
      }
    }
  }

  /** `solved()`: breadth-first search from the source, reporting success when the sink is dequeued. */
  method Solved(b: Board) returns (r: bool)
    requires Shaped(b)
    ensures r <==> Connected(b)
  {
    var g := ConnectorGrid(b);
    var q: seq<Cell> := [Source];
    var seen: set<Cell> := {Source};
    while |q| > 0
      invariant Searching(g, seen, q)
      decreases AllCells() - seen, |q|
    {
      if q[0] == Sink {
        return true;
      }
      seen, q := Round(g, seen, q);
    }
    assert Closed(g, seen);
    return false;
  }

  // ---------------------------------------------------------------------------
  // The board and the player's moves
  // ---------------------------------------------------------------------------

  /** The predefined board, before its rotations are randomised; the middle row already carries power. */
  const DefaultBoard: Board := [
    [Tile(Elbow, 1), Tile(Straight, 0), Tile(Elbow, 2)],
    [Tile(Tee, 0), Tile(Straight, 1), Tile(Tee, 2)],
    [Tile(Elbow, 0), Tile(Straight, 0), Tile(Elbow, 3)]
  ]

  /** Tile kinds of `b` agree with `c`'s cell by cell. */
  predicate SameKinds(b: Board, c: Board)
    requires Shaped(b) && Shaped(c)
  {
    forall y, x :: 0 <= y < Size && 0 <= x < Size ==> b[y][x].kind == c[y][x].kind
  }

  /** Every rotation counter is already reduced modulo its kind's orientation count. */
  predicate Reduced(b: Board)
    requires Shaped(b)
  {
    forall y, x :: 0 <= y < Size && 0 <= x < Size ==> b[y][x].rot < |Variants(b[y][x].kind)|
  }

  /** The randomisation at build time and on Reset: tile `(x, y)` takes
      `Math.floor(r * 4) % |variants|` for draw `draws[3 * y + x]`. */
  function Randomize(b: Board, draws: seq<real>): (r: Board)
    requires Shaped(b) && AreDraws(draws) && |draws| == Size * Size
    ensures Shaped(r) && SameKinds(r, b) && Reduced(r)
    ensures forall y, x :: 0 <= y < Size && 0 <= x < Size ==>
      r[y][x].rot == RandomIndex(draws[Size * y + x], 4) % |Variants(b[y][x].kind)|
  {
    seq(Size, y requires 0 <= y < Size =>
      seq(Size, x requires 0 <= x < Size =>
        var t := b[y][x];
        t.(rot := RandomIndex(draws[Size * y + x], 4) % |Variants(t.kind)|)))
  }

  /** `onRotate(x, y)`'s update: only the clicked tile turns. */
  function Rotate(b: Board, c: Cell): (r: Board)
    requires Shaped(b) && InBounds(c)
    ensures Shaped(r) && SameKinds(r, b)
    ensures At(r, c) == RotateTile(At(b, c))
    ensures forall c' :: InBounds(c') && c' != c ==> At(r, c') == At(b, c')
  {
    b[c.y := b[c.y][c.x := RotateTile(b[c.y][c.x])]]
  }

  /** Rotation keeps the counters reduced. */
  lemma RotateKeepsReduced(b: Board, c: Cell)
    requires Shaped(b) && InBounds(c) && Reduced(b)
    ensures Reduced(Rotate(b, c))
  {
    var r: Board := Rotate(b, c);
    forall y: int, x: int | 0 <= y < Size && 0 <= x < Size
      ensures r[y][x].rot < |Variants(r[y][x].kind)|
    {
      assert r[y][x] == At(r, Cell(x, y));
    }
  }

  /** A rotation click schedules the completion timer when it leaves the circuit restored. */
  datatype Cue = ScheduleDone

  /** `onRotate`: turn the tile, then schedule `done` iff the board is solved. */
  method OnRotate(b: Board, c: Cell) returns (b': Board, cues: seq<Cue>)
    requires Shaped(b) && InBounds(c)
    ensures b' == Rotate(b, c)
    ensures cues == [ScheduleDone] <==> Connected(b')
    ensures cues == [] <==> !Connected(b')
  {
    b' := Rotate(b, c);
    var ok := Solved(b');
    cues := if ok then [ScheduleDone] else [];
  }

  // ---------------------------------------------------------------------------
  // Reachability facts
  // ---------------------------------------------------------------------------

  /** The middle-row tiles that carry power straight across. */
  predicate MiddleRowOpen(b: Board)
    requires Shaped(b)
  {
    && E in Connectors(b[1][0])
    && W in Connectors(b[1][1]) && E in Connectors(b[1][1])
    && W in Connectors(b[1][2])
  }

  /** Whatever the other six tiles show, an open middle row restores the circuit. */
  lemma MiddleRowConnects(b: Board)
    requires Shaped(b) && MiddleRowOpen(b)
    ensures Connected(b)
  {
    var g := ConnectorGrid(b);
    assert g[1][0] == Connectors(At(b, Cell(0, 1)));
    assert g[1][1] == Connectors(At(b, Cell(1, 1)));
    assert g[1][2] == Connectors(At(b, Cell(2, 1)));
    assert Linked(g, Source, E);
    assert Linked(g, Cell(1, 1), E);
  }

  /** The unrandomised layout is solved. */
  lemma DefaultBoardConnected()
    ensures Shaped(DefaultBoard) && Connected(DefaultBoard)
  {
    MiddleRowConnects(DefaultBoard);
  }

  /** `k` clicks on one tile. */
  function Turns(t: Tile, k: nat): (r: Tile)
    ensures r.kind == t.kind
    decreases k
  {
    if k == 0 then t else Turns(RotateTile(t), k - 1)
  }

  /** Clicks needed to bring orientation `from` round to `want` among `n`. */
  function Distance(from: nat, want: nat, n: nat): nat
    requires from < n
  {
    if want >= from then want - from else want + n - from
  }

  /** From any reduced rotation, `Distance` clicks (fewer than the number of
      orientations) reach any chosen orientation. */
  lemma {:induction false} TurnsReachEveryOrientation(t: Tile, want: nat)
    requires t.rot < |Variants(t.kind)| && want < |Variants(t.kind)|
    ensures Distance(t.rot, want, |Variants(t.kind)|) < |Variants(t.kind)|
    ensures Turns(t, Distance(t.rot, want, |Variants(t.kind)|)).rot == want
    decreases Distance(t.rot, want, |Variants(t.kind)|)
  {
    var n := |Variants(t.kind)|;
    var k := Distance(t.rot, want, n);
    if k > 0 {
      var t1 := RotateTile(t);
      if t.rot + 1 < n {
        assert t1.rot == t.rot + 1;
      } else {
        assert t1.rot == 0;
      }
      assert Distance(t1.rot, want, n) == k - 1;
      TurnsReachEveryOrientation(t1, want);
    }
  }

  /** Clicks on the middle row that bring tile `x` back to its predefined orientation. */
  function RepairMiddle(b: Board): (m: seq<Tile>)
    requires Shaped(b) && SameKinds(b, DefaultBoard) && Reduced(b)
    ensures |m| == Size
  {
    seq(Size, x requires 0 <= x < Size =>
      Turns(b[1][x], Distance(b[1][x].rot, DefaultBoard[1][x].rot, |Variants(b[1][x].kind)|)))
  }

  /** Every randomised board can be solved: turning the three middle tiles back restores the circuit. */
  lemma RandomizedBoardSolvable(b: Board)
    requires Shaped(b) && SameKinds(b, DefaultBoard) && Reduced(b)
    ensures Connected(b[1 := RepairMiddle(b)])
  {
    var m := RepairMiddle(b);
    forall x | 0 <= x < Size
      ensures m[x] == DefaultBoard[1][x]
    {
      TurnsReachEveryOrientation(b[1][x], DefaultBoard[1][x].rot);
    }
    assert m == DefaultBoard[1];
    MiddleRowConnects(b[1 := m]);
  }

  // ---------------------------------------------------------------------------
  // Completion is scheduled again after the circuit is restored
  // ---------------------------------------------------------------------------

  /** The default layout with the middle straight turned vertical. */
  const BrokenBoard: Board := DefaultBoard[1 := DefaultBoard[1][1 := Tile(Straight, 0)]]

  /** The connectors of the broken board, row by row. */
  lemma BrokenGrid()
    ensures Shaped(BrokenBoard)
    ensures ConnectorGrid(BrokenBoard) == [
      [[E, S], [N, S], [S, W]],
      [[N, E, S], [N, S], [S, W, N]],
      [[N, E], [N, S], [W, N]]]
  {
    var g := ConnectorGrid(BrokenBoard);
    assert g[0] == [[E, S], [N, S], [S, W]];
    assert g[1] == [[N, E, S], [N, S], [S, W, N]];
    assert g[2] == [[N, E], [N, S], [W, N]];
  }

  /** On that grid the left column is closed: nothing links it to the middle column. */
  lemma LeftColumnClosed(g: Grid)
    requires g == [
      [[E, S], [N, S], [S, W]],
      [[N, E, S], [N, S], [S, W, N]],
      [[N, E], [N, S], [W, N]]]
    ensures GridShaped(g) && Closed(g, {Cell(0, 0), Cell(0, 1), Cell(0, 2)})
  {
    var s := {Cell(0, 0), Cell(0, 1), Cell(0, 2)};
    forall c, d | c in s && Linked(g, c, d)
      ensures Neighbor(c, d) in s
    {
      assert d != E;
    }
  }

  /** The broken board is not solved: power cannot leave the left column. */
  lemma BrokenBoardNotConnected()
    ensures Shaped(BrokenBoard) && !Connected(BrokenBoard)
  {
    BrokenGrid();
    LeftColumnClosed(ConnectorGrid(BrokenBoard));
  }

  /** As written, `onRotate` schedules completion whenever the board is solved after a
      click, so after the click that restores the circuit, a click on an off-path tile
      within the 500 ms delay schedules `done` a second time. */
  lemma RotateAfterSolvedSchedulesAgain()
    ensures Shaped(BrokenBoard) && !Connected(BrokenBoard)
    ensures var b1 := Rotate(BrokenBoard, Cell(1, 1));
      Connected(b1) && Connected(Rotate(b1, Cell(0, 0)))
  {
    BrokenBoardNotConnected();
    var b1 := Rotate(BrokenBoard, Cell(1, 1));
    assert b1[1] == DefaultBoard[1];
    MiddleRowConnects(b1);
    var b2 := Rotate(b1, Cell(0, 0));
    assert b2[1] == DefaultBoard[1];
    MiddleRowConnects(b2);
  }
}
