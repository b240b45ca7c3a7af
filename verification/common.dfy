/** Small shared vocabulary: an optional value, occurrence counting, and the
    `Math.floor(Math.random() * n)` idiom the game uses for every random choice. */
module Common {

  /** A JavaScript value that may be `undefined`/`null`. */
  datatype Option<+T> = None | Some(value: T)

  /** Number of occurrences of `x` in `s`. */
  function Count<T(==)>(s: seq<T>, x: T): nat
  {
    multiset(s)[x]
  }

  /** The positions of `s` that hold `x`. */
  function Positions<T(==)>(s: seq<T>, x: T): (ps: set<nat>)
    ensures forall k: nat :: k in ps <==> k < |s| && s[k] == x
  {
    set k | 0 <= k < |s| && s[k] == x
  }

  /** There are as many such positions as occurrences. */
  lemma {:induction false} PositionsCount<T>(s: seq<T>, x: T)
    ensures |Positions(s, x)| == Count(s, x)
    decreases |s|
  {
    if s == [] {
      assert Positions(s, x) == {};
    } else {
      var t := s[..|s| - 1];
      PositionsCount(t, x);
      assert s == t + [s[|s| - 1]];
      if s[|s| - 1] == x {
        assert Positions(s, x) == Positions(t, x) + {|s| - 1};
      } else {
        assert Positions(s, x) == Positions(t, x);
      }
    }
  }

  /** A draw of `Math.random()`: a real in the half-open interval [0, 1). */
  predicate IsDraw(r: real)
  {
    0.0 <= r < 1.0
  }

  /** Every element of `rs` is a draw of `Math.random()`. */
  predicate AreDraws(rs: seq<real>)
  {
    forall i :: 0 <= i < |rs| ==> IsDraw(rs[i])
  }

  /** `Math.floor(r * n)` for a draw `r`: always an index into a collection of size `n`. */
  function RandomIndex(r: real, n: nat): (k: nat)
    requires IsDraw(r) && n > 0
    ensures k < n
  {
    var x := r * (n as real);
    assert 0.0 <= x < n as real;
    x.Floor
  }

  /** Exchanging the elements at two positions; nothing else moves. */
  function Swap<T>(s: seq<T>, i: nat, j: nat): (r: seq<T>)
    requires i < |s| && j < |s|
    ensures |r| == |s| && r[i] == s[j] && r[j] == s[i]
    ensures forall k :: 0 <= k < |s| && k != i && k != j ==> r[k] == s[k]
    ensures multiset(r) == multiset(s)
  {
    s[i := s[j]][j := s[i]]
  }

  /** The Fisher–Yates loop `for (i = n - 1; i > 0; i--) swap(i, floor(random() * (i + 1)))`
      run from position `i` down to 1; draw `k` picks the partner of position `i - k`. */
  function ShuffleDown<T>(s: seq<T>, i: nat, draws: seq<real>): (r: seq<T>)
    requires i < |s| && |draws| >= i && AreDraws(draws)
    ensures |r| == |s| && multiset(r) == multiset(s)
    decreases i
  {
    if i == 0 then s
    else
      var j := RandomIndex(draws[0], i + 1);
      ShuffleDown(Swap(s, i, j), i - 1, draws[1..])
  }
}
