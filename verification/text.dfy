/** The string normalisation the input puzzle uses: `(s || '').trim().toLowerCase()`.

    `trim` strips the ECMAScript WhiteSpace and LineTerminator code points from
    both ends; `toLowerCase` is modelled on the ASCII letters only. */
module Text {

  /** The code points `String.prototype.trim` removes (ECMAScript WhiteSpace and LineTerminator). */
  predicate IsSpace(c: char)
  {
    var n := c as int;
    || n == 0x09 || n == 0x0A || n == 0x0B || n == 0x0C || n == 0x0D
    || n == 0x20 || n == 0xA0 || n == 0x1680
    || (0x2000 <= n <= 0x200A)
    || n == 0x2028 || n == 0x2029 || n == 0x202F || n == 0x205F
    || n == 0x3000 || n == 0xFEFF
  }

  predicate AllSpace(s: string)
  {
    forall i :: 0 <= i < |s| ==> IsSpace(s[i])
  }

  /** Drops the leading white space: the result is a suffix of `s` that does not
      start with white space (`TrimStartDropsSpace`: everything dropped is white space). */
  function TrimStart(s: string): (r: string)
    ensures |r| <= |s| && r == s[|s| - |r|..]
    ensures |r| == 0 || !IsSpace(r[0])
  {
    if |s| > 0 && IsSpace(s[0]) then TrimStart(s[1..]) else s
  }

  /** Drops the trailing white space: the result is a prefix of `s` that does not
      end with white space (`TrimEndDropsSpace`: everything dropped is white space). */
  function TrimEnd(s: string): (r: string)
    ensures |r| <= |s| && r == s[..|r|]
    ensures |r| == 0 || !IsSpace(r[|r| - 1])
  {
    if |s| > 0 && IsSpace(s[|s| - 1]) then TrimEnd(s[..|s| - 1]) else s
  }

  /** `String.prototype.trim`. */
  function Trim(s: string): string
  {
    TrimEnd(TrimStart(s))
  }

  function LowerChar(c: char): (d: char)
  {
    if 'A' <= c <= 'Z' then (c as int + 32) as char else c
  }

  /** `String.prototype.toLowerCase` on ASCII letters. */
  function Lower(s: string): (r: string)
  {
    seq(|s|, i requires 0 <= i < |s| => LowerChar(s[i]))
  }

  /** The input puzzle's `normalize`: trim, then lower-case. */
  function Normalize(s: string): string
  {
    Lower(Trim(s))
  }

  // ---------------------------------------------------------------------------
  // Properties of trim
  // ---------------------------------------------------------------------------

  /** How many leading white-space characters `Trim` drops. */
  function Lead(s: string): nat
  {
    |s| - |TrimStart(s)|
  }

  /** Everything `TrimStart` drops is white space. */
  lemma {:induction false} TrimStartDropsSpace(s: string)
    ensures AllSpace(s[..|s| - |TrimStart(s)|])
    decreases |s|
  {
    if |s| > 0 && IsSpace(s[0]) {
      var t := s[1..];
      var r := TrimStart(t);
      TrimStartDropsSpace(t);
      assert TrimStart(s) == r;
      forall i | 0 <= i < |s| - |r| ensures IsSpace(s[i]) {
        if i > 0 {
          assert s[i] == t[..|t| - |r|][i - 1];
        }
      }
    }
  }

  /** Everything `TrimEnd` drops is white space. */
  lemma {:induction false} TrimEndDropsSpace(s: string)
    ensures AllSpace(s[|TrimEnd(s)|..])
    decreases |s|
  {
    if |s| > 0 && IsSpace(s[|s| - 1]) {
      var p := s[..|s| - 1];
      var r := TrimEnd(p);
      TrimEndDropsSpace(p);
      assert TrimEnd(s) == r;
      forall i | |r| <= i < |s| ensures IsSpace(s[i]) {
        if i < |s| - 1 {
          assert s[i] == p[|r|..][i - |r|];
        }
      }
    }
  }

  /** Slicing a suffix again is slicing the original. */
  lemma SuffixSlices(s: string, i: nat, n: nat)
    requires i + n <= |s|
    ensures s[i..][..n] == s[i..i + n] && s[i..][n..] == s[i + n..]
  {
  }

  /** `Trim` keeps a contiguous middle part of `s` and drops only white space around it. */
  lemma TrimKeepsMiddle(s: string)
    ensures Lead(s) + |Trim(s)| <= |s|
    ensures Trim(s) == s[Lead(s)..Lead(s) + |Trim(s)|]
    ensures AllSpace(s[..Lead(s)]) && AllSpace(s[Lead(s) + |Trim(s)|..])
  {
    var t := TrimStart(s);
    var r := TrimEnd(t);
    var i := |s| - |t|;
    assert Lead(s) == i && Trim(s) == r;
    TrimStartDropsSpace(s);
    TrimEndDropsSpace(t);
    SuffixSlices(s, i, |r|);
    assert r == s[i..i + |r|];
    assert t[|r|..] == s[i + |r|..];
  }

  /** The result of `Trim` neither starts nor ends with white space. */
  lemma TrimHasNoOuterSpace(s: string)
    ensures var r := Trim(s); |r| == 0 || (!IsSpace(r[0]) && !IsSpace(r[|r| - 1]))
  {
    var t := TrimStart(s);
    var r := TrimEnd(t);
    if |r| > 0 {
      assert r[0] == t[0];
    }
  }

  lemma {:induction false} TrimStartOfSpacePrefix(w: string, s: string)
    requires AllSpace(w)
    ensures TrimStart(w + s) == TrimStart(s)
    decreases |w|
  {
    if |w| > 0 {
      assert (w + s)[1..] == w[1..] + s;
      TrimStartOfSpacePrefix(w[1..], s);
    } else {
      assert w + s == s;
    }
  }

  lemma {:induction false} TrimEndOfSpaceSuffix(s: string, w: string)
    requires AllSpace(w)
    ensures TrimEnd(s + w) == TrimEnd(s)
    decreases |w|
  {
    if |w| > 0 {
      assert (s + w)[..|s + w| - 1] == s + w[..|w| - 1];
      TrimEndOfSpaceSuffix(s, w[..|w| - 1]);
    } else {
      assert s + w == s;
    }
  }

  /** A string with no outer white space is its own trim. */
  lemma TrimOfTrimmed(s: string)
    requires |s| == 0 || (!IsSpace(s[0]) && !IsSpace(s[|s| - 1]))
    ensures Trim(s) == s
  {
  }

  /** Trimming the front of a concatenation either stops inside the first part or skips it entirely. */
  lemma {:induction false} TrimStartAppend(s: string, w: string)
    ensures TrimStart(s + w) == if |TrimStart(s)| == 0 then TrimStart(w) else TrimStart(s) + w
    decreases |s|
  {
    if |s| == 0 {
      assert s + w == w;
    } else if IsSpace(s[0]) {
      assert (s + w)[1..] == s[1..] + w;
      TrimStartAppend(s[1..], w);
    } else {
      assert (s + w)[0] == s[0];
    }
  }

  lemma AllSpaceTrimsToEmpty(w: string)
    requires AllSpace(w)
    ensures TrimStart(w) == ""
  {
    assert w + "" == w;
    TrimStartOfSpacePrefix(w, "");
  }

  /** White space added around a string does not change its trim. */
  lemma TrimIgnoresPadding(w1: string, s: string, w2: string)
    requires AllSpace(w1) && AllSpace(w2)
    ensures Trim(w1 + s + w2) == Trim(s)
  {
    assert w1 + s + w2 == w1 + (s + w2);
    TrimStartOfSpacePrefix(w1, s + w2);
    assert TrimStart(w1 + s + w2) == TrimStart(s + w2);
    TrimStartAppend(s, w2);
    var t := TrimStart(s);
    if |t| == 0 {
      AllSpaceTrimsToEmpty(w2);
      assert TrimStart(s + w2) == [] && t == [];
    } else {
      assert TrimStart(s + w2) == t + w2;
      TrimEndOfSpaceSuffix(t, w2);
    }
  }

  /** Trimming twice is trimming once. */
  lemma TrimIdempotent(s: string)
    ensures Trim(Trim(s)) == Trim(s)
  {
    TrimHasNoOuterSpace(s);
    TrimOfTrimmed(Trim(s));
  }

  // ---------------------------------------------------------------------------
  // Properties of lower-casing and of Normalize
  // ---------------------------------------------------------------------------

  /** Lower-casing keeps the length, maps every character, and never creates or removes white space. */
  lemma LowerPointwise(s: string)
    ensures |Lower(s)| == |s|
    ensures forall i :: 0 <= i < |s| ==> Lower(s)[i] == LowerChar(s[i])
    ensures forall i :: 0 <= i < |s| ==> (IsSpace(Lower(s)[i]) <==> IsSpace(s[i]))
  {
  }

  /** Lower-casing twice is lower-casing once. */
  lemma LowerIdempotent(s: string)
    ensures Lower(Lower(s)) == Lower(s)
  {
  }

  lemma LowerDistributes(a: string, b: string)
    ensures Lower(a + b) == Lower(a) + Lower(b)
  {
  }

  /** Lower-casing white space leaves white space. */
  lemma LowerKeepsSpace(w: string)
    requires AllSpace(w)
    ensures AllSpace(Lower(w))
  {
    LowerPointwise(w);
  }

  /** Lower-casing a character never makes or unmakes white space. */
  lemma LowerCharKeepsSpace(c: char)
    ensures IsSpace(LowerChar(c)) <==> IsSpace(c)
  {
  }

  /** The lower-cased trim of a string is already trimmed. */
  lemma LowerOfTrimIsTrimmed(s: string)
    ensures Trim(Lower(Trim(s))) == Lower(Trim(s))
  {
    var r := Trim(s);
    var l := Lower(r);
    TrimHasNoOuterSpace(s);
    if |r| > 0 {
      assert l[0] == LowerChar(r[0]) && l[|l| - 1] == LowerChar(r[|r| - 1]);
      LowerCharKeepsSpace(r[0]);
      LowerCharKeepsSpace(r[|r| - 1]);
    }
    TrimOfTrimmed(l);
  }

  /** Lower-casing three parts. */
  lemma LowerDistributes3(a: string, r: string, b: string)
    ensures Lower(a + r + b) == Lower(a) + Lower(r) + Lower(b)
  {
    LowerDistributes(a + r, b);
    LowerDistributes(a, r);
  }

  /** Trim and lower-case commute, so the puzzle accepts iff `trim(lower(x)) == trim(lower(y))`. */
  lemma NormalizeIsTrimOfLower(s: string)
    ensures Normalize(s) == Trim(Lower(s))
  {
    var r := Trim(s);
    TrimKeepsMiddle(s);
    var i := Lead(s);
    var a, b := s[..i], s[i + |r|..];
    assert s == a + r + b;
    LowerDistributes3(a, r, b);
    LowerKeepsSpace(a);
    LowerKeepsSpace(b);
    LowerOfTrimIsTrimmed(s);
    TrimIgnoresPadding(Lower(a), Lower(r), Lower(b));
  }

  /** Normalising twice is normalising once. */
  lemma NormalizeIdempotent(s: string)
    ensures Normalize(Normalize(s)) == Normalize(s)
  {
    LowerOfTrimIsTrimmed(s);
    LowerIdempotent(Trim(s));
  }

  /** Surrounding white space and letter case do not affect the normal form. */
  lemma NormalizeIgnoresPaddingAndCase(w1: string, a: string, b: string, w2: string)
    requires AllSpace(w1) && AllSpace(w2)
    requires Lower(a) == Lower(b)
    ensures Normalize(w1 + a + w2) == Normalize(b)
  {
    NormalizeIsTrimOfLower(w1 + a + w2);
    NormalizeIsTrimOfLower(b);
    LowerDistributes(w1 + a, w2);
    LowerDistributes(w1, a);
    LowerPointwise(w1);
    LowerPointwise(w2);
    TrimIgnoresPadding(Lower(w1), Lower(a), Lower(w2));
  }
}
