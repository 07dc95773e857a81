/**
 Comparison of dominant shares (compareShares in pkg/common/resources/resources.go). The lists are
 sorted in increasing order and are compared from their ends.
 */
module Shares {

  /** The length of the longer list. */
  function Longer(l: seq<real>, r: seq<real>): nat {
    if |l| >= |r| then |l| else |r|
  }

  /** The i-th largest share; a list that has run out counts as zero. */
  function FromEnd(s: seq<real>, i: nat): real {
    if i < |s| then s[|s| - 1 - i] else 0.0
  }

  function Sign(l: real, r: real): int {
    if l > r then 1 else if l < r then -1 else 0
  }

  /** Lexicographic comparison of the reversed lists, both padded with zeros to length n. */
  function Lexicographic(l: seq<real>, r: seq<real>, i: nat, n: nat): int
    requires i <= n
    decreases n - i
  {
    if i == n then 0
    else
      var c := Sign(FromEnd(l, i), FromEnd(r, i));
      if c != 0 then c else Lexicographic(l, r, i + 1, n)
  }

  function Compare(l: seq<real>, r: seq<real>): int {
    Lexicographic(l, r, 0, Longer(l, r))
  }

  /** The three loops of the source compute the padded lexicographic order. */
  method CompareShares(lshares: seq<real>, rshares: seq<real>) returns (c: int)
    ensures c == Compare(lshares, rshares)
  {
    ghost var n := Longer(lshares, rshares);
    var lIdx, rIdx := |lshares| - 1, |rshares| - 1;
    while rIdx >= 0 && lIdx >= 0
      invariant -1 <= lIdx < |lshares| && -1 <= rIdx < |rshares|
      invariant |lshares| - lIdx == |rshares| - rIdx
      invariant Compare(lshares, rshares) == Lexicographic(lshares, rshares, |lshares| - 1 - lIdx, n)
    {
      if lshares[lIdx] > rshares[rIdx] { return 1; }
      if lshares[lIdx] < rshares[rIdx] { return -1; }
      lIdx, rIdx := lIdx - 1, rIdx - 1;
    }
    if lIdx == -1 && rIdx == -1 { return 0; }
    if lIdx >= 0 {
      while lIdx >= 0
        invariant -1 <= lIdx < |lshares| && rIdx == -1 && n == |lshares|
        invariant |rshares| <= |lshares| - 1 - lIdx
        invariant Compare(lshares, rshares) == Lexicographic(lshares, rshares, |lshares| - 1 - lIdx, n)
      {
        if lshares[lIdx] > 0.0 { return 1; }
        if lshares[lIdx] < 0.0 { return -1; }
        lIdx := lIdx - 1;
      }
      return 0;
    }
    while rIdx >= 0
      invariant -1 <= rIdx < |rshares| && n == |rshares|
      invariant |lshares| <= |rshares| - 1 - rIdx
      invariant Compare(lshares, rshares) == Lexicographic(lshares, rshares, |rshares| - 1 - rIdx, n)
    {
      if rshares[rIdx] > 0.0 { return -1; }
      if rshares[rIdx] < 0.0 { return 1; }
      rIdx := rIdx - 1;
    }
    return 0;
  }

  // ---------- laws ----------

  /** Padding beyond both lists does not matter. */
  lemma {:induction false} MorePadding(l: seq<real>, r: seq<real>, i: nat, n: nat, m: nat)
    requires i <= n <= m && |l| <= n && |r| <= n
    ensures Lexicographic(l, r, i, n) == Lexicographic(l, r, i, m)
    decreases m - i
  {
    if i < n {
      MorePadding(l, r, i + 1, n, m);
    } else if i < m {
      PaddingIsEqual(l, r, i, m);
    }
  }

  lemma {:induction false} PaddingIsEqual(l: seq<real>, r: seq<real>, i: nat, m: nat)
    requires |l| <= i <= m && |r| <= i
    ensures Lexicographic(l, r, i, m) == 0
    decreases m - i
  {
    if i < m {
      PaddingIsEqual(l, r, i + 1, m);
    }
  }

  lemma {:induction false} LexAntisymmetric(l: seq<real>, r: seq<real>, i: nat, n: nat)
    requires i <= n
    ensures Lexicographic(l, r, i, n) == 0 - Lexicographic(r, l, i, n)
    decreases n - i
  {
    if i < n {
      LexAntisymmetric(l, r, i + 1, n);
    }
  }

  lemma Antisymmetric(l: seq<real>, r: seq<real>)
    ensures Compare(l, r) == 0 - Compare(r, l)
  {
    LexAntisymmetric(l, r, 0, Longer(l, r));
  }

  lemma {:induction false} LexTransitive(a: seq<real>, b: seq<real>, c: seq<real>, i: nat, n: nat)
    requires i <= n && Lexicographic(a, b, i, n) <= 0 && Lexicographic(b, c, i, n) <= 0
    ensures Lexicographic(a, c, i, n) <= 0
    ensures Lexicographic(a, c, i, n) == 0 ==> Lexicographic(a, b, i, n) == 0 && Lexicographic(b, c, i, n) == 0
    decreases n - i
  {
    if i < n && FromEnd(a, i) == FromEnd(b, i) == FromEnd(c, i) {
      LexTransitive(a, b, c, i + 1, n);
    }
  }

  /** A total preorder: sorting by it is well defined. */
  lemma Transitive(a: seq<real>, b: seq<real>, c: seq<real>)
    requires Compare(a, b) <= 0 && Compare(b, c) <= 0
    ensures Compare(a, c) <= 0
    ensures Compare(a, c) == 0 ==> Compare(a, b) == 0 && Compare(b, c) == 0
  {
    var n := |a| + |b| + |c|;
    MorePadding(a, b, 0, Longer(a, b), n);
    MorePadding(b, c, 0, Longer(b, c), n);
    MorePadding(a, c, 0, Longer(a, c), n);
    LexTransitive(a, b, c, 0, n);
  }

  // ---------- what decides ----------

  /** The list with as many zeros in front as it takes to make it n long. */
  function Padded(s: seq<real>, n: nat): (p: seq<real>)
    requires |s| <= n
    ensures |p| == n
  {
    seq(n - |s|, _ => 0.0) + s
  }

  /** From position i on, the first difference decides. */
  lemma {:induction false} LexDecided(l: seq<real>, r: seq<real>, i: nat, n: nat)
    requires i <= n
    ensures Lexicographic(l, r, i, n) > 0 <==>
              exists m | i <= m < n :: FromEnd(l, m) > FromEnd(r, m) && forall j | i <= j < m :: FromEnd(l, j) == FromEnd(r, j)
    ensures Lexicographic(l, r, i, n) == 0 <==> forall j | i <= j < n :: FromEnd(l, j) == FromEnd(r, j)
    decreases n - i
  {
    if i < n {
      LexDecided(l, r, i + 1, n);
      if FromEnd(l, i) == FromEnd(r, i) && Lexicographic(l, r, i, n) > 0 {
        var m :| i + 1 <= m < n && FromEnd(l, m) > FromEnd(r, m) && forall j | i + 1 <= j < m :: FromEnd(l, j) == FromEnd(r, j);
        assert forall j | i <= j < m :: FromEnd(l, j) == FromEnd(r, j);
      }
    }
  }

  lemma PaddedAt(s: seq<real>, n: nat, m: nat)
    requires |s| <= n && m < n
    ensures Padded(s, n)[n - 1 - m] == FromEnd(s, m)
  {
  }

  /** A list compares as larger exactly if it has the larger share at the last position at which the two differ. */
  lemma GreaterIff(l: seq<real>, r: seq<real>)
    ensures var n := Longer(l, r);
            Compare(l, r) > 0 <==>
              exists i | 0 <= i < n :: Padded(l, n)[i] > Padded(r, n)[i] && Padded(l, n)[i + 1..] == Padded(r, n)[i + 1..]
  {
    var n := Longer(l, r);
    var p, q := Padded(l, n), Padded(r, n);
    forall m | 0 <= m < n
      ensures p[n - 1 - m] == FromEnd(l, m) && q[n - 1 - m] == FromEnd(r, m)
    {
      PaddedAt(l, n, m);
      PaddedAt(r, n, m);
    }
    LexDecided(l, r, 0, n);
    if Compare(l, r) > 0 {
      var m :| 0 <= m < n && FromEnd(l, m) > FromEnd(r, m) && forall j | 0 <= j < m :: FromEnd(l, j) == FromEnd(r, j);
      forall i | n - m <= i < n
        ensures p[i] == q[i]
      {
        assert FromEnd(l, n - 1 - i) == FromEnd(r, n - 1 - i);
      }
      assert p[n - 1 - m + 1..] == q[n - 1 - m + 1..];
    }
    if i :| 0 <= i < n && p[i] > q[i] && p[i + 1..] == q[i + 1..] {
      var m := n - 1 - i;
      forall j | 0 <= j < m
        ensures FromEnd(l, j) == FromEnd(r, j)
      {
        assert p[n - 1 - j] == p[i + 1..][m - 1 - j] && q[n - 1 - j] == q[i + 1..][m - 1 - j];
      }
      assert FromEnd(l, m) > FromEnd(r, m);
    }
  }

  // ---------- explicit zeros ----------

  ghost predicate SortedShares(s: seq<real>) {
    forall i, j | 0 <= i < j < |s| :: s[i] <= s[j]
  }

  function LeadingZeros(s: seq<real>): (n: nat)
    ensures n <= |s| && forall i | 0 <= i < n :: s[i] == 0.0
    ensures n < |s| ==> s[n] != 0.0
  {
    if s == [] || s[0] != 0.0 then 0 else 1 + LeadingZeros(s[1..])
  }

  /** The list without its explicit zeros. */
  function NonZero(s: seq<real>): seq<real> {
    s[LeadingZeros(s)..]
  }

  /** In a sorted list without negative shares all zeros come first. */
  lemma NoOtherZeros(s: seq<real>, i: nat)
    requires SortedShares(s) && i < |s| && s[0] >= 0.0
    ensures s[i] == 0.0 <==> i < LeadingZeros(s)
  {
    var n := LeadingZeros(s);
    if n < i {
      assert s[n] <= s[i] && s[0] <= s[n];
    }
  }

  lemma {:induction false} SameFromEnd(l: seq<real>, l': seq<real>, r: seq<real>, i: nat, n: nat)
    requires i <= n && forall j | 0 <= j < n :: FromEnd(l, j) == FromEnd(l', j)
    ensures Lexicographic(l, r, i, n) == Lexicographic(l', r, i, n)
    decreases n - i
  {
    if i < n {
      SameFromEnd(l, l', r, i + 1, n);
    }
  }

  /** An explicit zero at the small end and a missing type compare the same. */
  lemma ZerosAreIgnored(s: seq<real>, r: seq<real>)
    ensures Compare(NonZero(s), r) == Compare(s, r)
    ensures Compare(r, NonZero(s)) == Compare(r, s)
  {
    var zeros := LeadingZeros(s);
    var n := Longer(s, r);
    forall j: nat
      ensures FromEnd(s[zeros..], j) == FromEnd(s, j)
    {
    }
    MorePadding(s[zeros..], r, 0, Longer(s[zeros..], r), n);
    SameFromEnd(s[zeros..], s, r, 0, n);
    Antisymmetric(s, r);
    Antisymmetric(s[zeros..], r);
  }
}
