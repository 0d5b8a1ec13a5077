/** The point sort: a quicksort of two arrays at once whose pivot is halved.  What it does,
    as a function of the points, and exactly when that is sorting. */
module PointSort {
  import opened QuickSort

  datatype Screen = Screen(x: real, y: real)

  datatype World = World(x: real, y: real, z: real)

  // ------------------------------------------------------- the sort as a function

  /** Scanning up: the first element not above the pivot, or the last index. */
  function UpFrom(w: seq<World>, p: real, i: nat, right: nat): (r: nat)
    requires i <= right < |w|
    ensures i <= r <= right && (r < right ==> w[r].z <= p)
    ensures forall k :: i <= k < r ==> w[k].z > p
    decreases right - i
  {
    if i < right && w[i].z > p then UpFrom(w, p, i + 1, right) else i
  }

  /** Scanning down: the first element not below the pivot, or the first index. */
  function DownFrom(w: seq<World>, p: real, left: nat, j: nat): (r: nat)
    requires left <= j < |w|
    ensures left <= r <= j && (left < r ==> w[r].z >= p)
    ensures forall k :: r < k <= j ==> w[k].z < p
    decreases j
  {
    if j > left && w[j].z < p then DownFrom(w, p, left, j - 1) else j
  }

  function Exchange<T>(s: seq<T>, i: nat, j: nat): (r: seq<T>)
    requires i < |s| && j < |s|
    ensures |r| == |s|
  {
    s[i := s[j]][j := s[i]]
  }

  /** Where the outer loop leaves the points and its two indices. */
  datatype Cut = Cut(w: seq<World>, i: nat, j: int)

  /** The indices are in their initial place, or both scans have moved on from it. */
  predicate Moved(left: nat, right: nat, i: nat, j: int) {
    left <= i <= right + 1 && left <= j + 1 <= right + 1
    && ((i == left && j == right) || (left < i && j < right))
  }

  /** The body of the outer loop: two scans and, unless they have crossed, a swap. */
  function Pass(w: seq<World>, p: real, left: nat, right: nat, i: nat, j: nat): (c: Cut)
    requires left < right < |w| && i <= j && Moved(left, right, i, j)
    ensures |c.w| == |w| && Moved(left, right, c.i, c.j) && left < c.i && c.j - c.i < j - i
  {
    var u, d := UpFrom(w, p, i, right), DownFrom(w, p, left, j);
    if u <= d then Cut(Exchange(w, u, d), u + 1, d - 1) else Cut(w, u, d)
  }

  function Passes(w: seq<World>, p: real, left: nat, right: nat, i: nat, j: int): (c: Cut)
    requires left < right < |w| && Moved(left, right, i, j)
    ensures |c.w| == |w| && left < c.i <= right + 1 && left <= c.j + 1 <= right && c.j < c.i
    decreases j + 1 - i
  {
    if i > j then Cut(w, i, j)
    else
      var c := Pass(w, p, left, right, i, j);
      Passes(c.w, p, left, right, c.i, c.j)
  }

  /** Half the Z of the middle element. */
  function Pivot(w: seq<World>, left: nat, right: nat): real
    requires left <= right < |w|
  {
    w[(left + right) / 2].z / 2.0
  }

  function Parted(w: seq<World>, left: nat, right: nat): (c: Cut)
    requires left < right < |w|
    ensures |c.w| == |w| && left < c.i <= right + 1 && left <= c.j + 1 <= right && c.j < c.i
  {
    Passes(w, Pivot(w, left, right), left, right, left, right)
  }

  function Sorted(w: seq<World>, left: nat, right: int): (r: seq<World>)
    requires left <= right + 1 <= |w|
    ensures |r| == |w|
    decreases right + 1 - left
  {
    if right <= left then w
    else
      var c := Parted(w, left, right);
      var w1 := if left < c.j then Sorted(c.w, left, c.j) else c.w;
      if c.i < right then Sorted(w1, c.i, right) else w1
  }

  // ----------------------------------------------------- what it always keeps

  lemma ExchangePermutes<T>(s: seq<T>, i: nat, j: nat, lo: nat, hi: nat)
    requires lo <= i < hi <= |s| && lo <= j < hi
    ensures Permutes(s, Exchange(s, i, j), lo, hi)
  {
    var t := Exchange(s, i, j);
    assert t[lo..hi] == s[lo..hi][i - lo := s[j]][j - lo := s[i]];
  }

  lemma PassPermutes(w: seq<World>, p: real, left: nat, right: nat, i: nat, j: nat)
    requires left < right < |w| && i <= j && Moved(left, right, i, j)
    ensures Permutes(w, Pass(w, p, left, right, i, j).w, left, right + 1)
  {
    hide Permutes, Exchange;
    PermutesSelf(w, left, right + 1);
    var u, d := UpFrom(w, p, i, right), DownFrom(w, p, left, j);
    ExchangePermutes(w, u, d, left, right + 1);
  }

  lemma {:induction false} PassesPermutes(w: seq<World>, p: real, left: nat, right: nat, i: nat, j: int)
    requires left < right < |w| && Moved(left, right, i, j)
    ensures Permutes(w, Passes(w, p, left, right, i, j).w, left, right + 1)
    decreases j + 1 - i
  {
    hide Permutes, Pass, Moved;
    PermutesSelf(w, left, right + 1);
    if i <= j {
      var c := Pass(w, p, left, right, i, j);
      PassPermutes(w, p, left, right, i, j);
      PassesPermutes(c.w, p, left, right, c.i, c.j);
      PermutesTwice(w, c.w, Passes(c.w, p, left, right, c.i, c.j).w, left, right + 1);
    }
  }

  lemma {:induction false} SortedPermutes(w: seq<World>, left: nat, right: int)
    requires left <= right + 1 <= |w|
    ensures Permutes(w, Sorted(w, left, right), left, right + 1)
    decreases right + 1 - left, 0
  {
    hide Permutes, Parted;
    if left < right {
      var c := Parted(w, left, right);
      PartedPermutes(w, left, right);
      var w1 := if left < c.j then Sorted(c.w, left, c.j) else c.w;
      var w2 := if c.i < right then Sorted(w1, c.i, right) else w1;
      PartPermutes(c.w, w1, left, c.j);
      PartPermutes(w1, w2, c.i, right);
      BothPermute(w, c.w, w1, w2, left, right, c.i, c.j);
    } else {
      PermutesSelf(w, left, right + 1);
    }
  }

  lemma PartedPermutes(w: seq<World>, left: nat, right: nat)
    requires left < right < |w|
    ensures Permutes(w, Parted(w, left, right).w, left, right + 1)
  {
    hide Permutes, Passes;
    PassesPermutes(w, Pivot(w, left, right), left, right, left, right);
  }

  lemma BothPermute(w: seq<World>, w0: seq<World>, w1: seq<World>, w2: seq<World>,
                    left: nat, right: nat, i: nat, j: int)
    requires left <= j + 1 <= i <= right + 1 <= |w| == |w0| == |w1| == |w2|
    requires Permutes(w, w0, left, right + 1) && Permutes(w0, w1, left, j + 1) && Permutes(w1, w2, i, right + 1)
    ensures Permutes(w, w2, left, right + 1)
  {
    hide Permutes;
    PermutesWider(w0, w1, left, j + 1, left, right + 1);
    PermutesWider(w1, w2, i, right + 1, left, right + 1);
    PermutesTwice(w, w0, w1, left, right + 1);
    PermutesTwice(w, w1, w2, left, right + 1);
  }

  lemma PartPermutes(v: seq<World>, v': seq<World>, lo: nat, hi: int)
    requires lo <= hi + 1 <= |v| && v' == if lo < hi then Sorted(v, lo, hi) else v
    ensures |v'| == |v| && Permutes(v, v', lo, hi + 1)
    decreases hi + 1 - lo, 1
  {
    hide Permutes, Sorted;
    SortedPermutes(v, lo, hi);
    PermutesSelf(v, lo, hi + 1);
  }

  // ------------------------------------------------------- exactly when it sorts

  predicate InOrder(w: seq<World>, lo: nat, hi: nat)
    requires hi <= |w|
  {
    forall i, j :: lo <= i < j < hi ==> w[i].z >= w[j].z
  }

  predicate AllAtLeast(w: seq<World>, lo: nat, hi: nat, p: real)
    requires hi <= |w|
  {
    forall k :: lo <= k < hi ==> w[k].z >= p
  }

  predicate AllAtMost(w: seq<World>, lo: nat, hi: nat, p: real)
    requires hi <= |w|
  {
    forall k :: lo <= k < hi ==> w[k].z <= p
  }

  predicate AllAbove(w: seq<World>, left: nat, right: nat, p: real)
    requires right < |w|
  {
    forall k :: left <= k <= right ==> w[k].z > p
  }

  predicate AllBelow(w: seq<World>, left: nat, right: nat, p: real)
    requires right < |w|
  {
    forall k :: left <= k <= right ==> w[k].z < p
  }

  lemma SameBounds(w: seq<World>, w': seq<World>, lo: nat, hi: nat, p: real)
    requires lo <= hi <= |w| == |w'| && Permutes(w, w', lo, hi)
    ensures AllAtLeast(w, lo, hi, p) <==> AllAtLeast(w', lo, hi, p)
    ensures AllAtMost(w, lo, hi, p) <==> AllAtMost(w', lo, hi, p)
  {
    BoundsKept(w, w', lo, hi, p);
    BoundsKept(w', w, lo, hi, p);
  }

  lemma BoundsKept(w: seq<World>, w': seq<World>, lo: nat, hi: nat, p: real)
    requires lo <= hi <= |w| == |w'| && multiset(w'[lo..hi]) == multiset(w[lo..hi])
    ensures AllAtLeast(w, lo, hi, p) ==> AllAtLeast(w', lo, hi, p)
    ensures AllAtMost(w, lo, hi, p) ==> AllAtMost(w', lo, hi, p)
  {
    forall k | lo <= k < hi ensures exists n :: lo <= n < hi && w[n] == w'[k] {
      assert w'[lo..hi][k - lo] == w'[k];
      assert w'[k] in multiset(w'[lo..hi]);
      assert w'[k] in w[lo..hi];
      var n :| 0 <= n < hi - lo && w[lo..hi][n] == w'[k];
      assert w[lo + n] == w'[k];
    }
  }

  lemma OnePass(w: seq<World>, left: nat, right: nat)
    requires left < right < |w|
    ensures var c := Pass(w, Pivot(w, left, right), left, right, left, right);
            c.j < c.i ==> Parted(w, left, right) == c
  {
    hide Pass;
    var p := Pivot(w, left, right);
    var c := Pass(w, p, left, right, left, right);
    if c.j < c.i {
      assert Passes(c.w, p, left, right, c.i, c.j) == c;
    }
  }

  /** A pass with a pivot beyond all elements moves nothing, and leaves one element at an end
      out of the recursion. */
  lemma BeyondMovesNothing(w: seq<World>, left: nat, right: nat)
    requires left < right < |w|
    ensures var c, p := Parted(w, left, right), Pivot(w, left, right);
            (AllAbove(w, left, right, p) ==> c == Cut(w, right + 1, right - 1))
            && (AllBelow(w, left, right, p) ==> c == Cut(w, left + 1, left - 1))
  {
    var p := Pivot(w, left, right);
    var u, d := UpFrom(w, p, left, right), DownFrom(w, p, left, right);
    OnePass(w, left, right);
    assert Exchange(w, right, right) == w && Exchange(w, left, left) == w;
    hide Passes, Pivot;
    if AllAbove(w, left, right, p) {
      assert u == right && d == right;
    } else if AllBelow(w, left, right, p) {
      assert u == left && d == left;
    }
  }

  /** What lies outside the indices is placed, and elements that stop both scans are left. */
  predicate Placed(w: seq<World>, left: nat, right: nat, i: nat, j: int, p: real, stopI: nat, stopJ: nat)
    requires right < |w|
  {
    left <= i <= right + 1 && left <= j + 1 <= right + 1
    && AllAtLeast(w, left, i, p) && AllAtMost(w, j + 1, right + 1, p)
    && (i <= j ==> i <= stopI <= right && w[stopI].z <= p && left <= stopJ <= j && w[stopJ].z >= p)
  }

  lemma PassPlaces(w: seq<World>, p: real, left: nat, right: nat, i: nat, j: nat, stopI: nat, stopJ: nat)
    returns (stopI': nat, stopJ': nat)
    requires left < right < |w| && i <= j && Moved(left, right, i, j)
    requires Placed(w, left, right, i, j, p, stopI, stopJ)
    ensures var c := Pass(w, p, left, right, i, j);
            Placed(c.w, left, right, c.i, c.j, p, stopI', stopJ')
  {
    var u, d := UpFrom(w, p, i, right), DownFrom(w, p, left, j);
    assert u <= stopI && w[u].z <= p;
    assert d >= stopJ && w[d].z >= p;
    stopI', stopJ' := d, u;
  }

  /** Otherwise the pass separates the larger elements from the smaller ones. */
  lemma {:induction false} PassesSeparate(w: seq<World>, p: real, left: nat, right: nat, i: nat, j: int,
                                          stopI: nat, stopJ: nat)
    requires left < right < |w| && Moved(left, right, i, j)
    requires Placed(w, left, right, i, j, p, stopI, stopJ)
    ensures var c := Passes(w, p, left, right, i, j);
            AllAtLeast(c.w, left, c.i, p) && AllAtMost(c.w, c.j + 1, right + 1, p)
    decreases j + 1 - i
  {
    hide Pass, AllAtLeast, AllAtMost;
    if i <= j {
      var c := Pass(w, p, left, right, i, j);
      var stopI', stopJ' := PassPlaces(w, p, left, right, i, j, stopI, stopJ);
      PassesSeparate(c.w, p, left, right, c.i, c.j, stopI', stopJ');
    }
  }

  /** If the pivot lies beyond all elements, the one left out is the least, or the greatest. */
  predicate LeavesExtreme(w: seq<World>, left: nat, right: nat, p: real)
    requires left <= right < |w|
  {
    (AllAbove(w, left, right, p) ==> AllAtLeast(w, left, right + 1, w[right].z))
    && (AllBelow(w, left, right, p) ==> AllAtMost(w, left, right + 1, w[left].z))
  }

  /** Does the sort succeed?  It does unless some call whose pivot lies beyond all its
      elements leaves out one that is not the least, or the greatest, of them.  The calls are
      known from the passes alone: nothing needs to be sorted to tell. */
  predicate Succeeds(w: seq<World>, left: nat, right: int)
    requires left <= right + 1 <= |w|
    decreases right + 1 - left
  {
    right <= left
    || (var c := Parted(w, left, right);
        LeavesExtreme(w, left, right, Pivot(w, left, right))
        && (left < c.j ==> Succeeds(c.w, left, c.j))
        && (c.i < right ==> Succeeds(c.w, c.i, right)))
  }

  lemma Outside(w: seq<World>, w': seq<World>, lo: nat, hi: nat)
    requires lo <= hi <= |w| == |w'| && Permutes(w, w', lo, hi)
    ensures forall k :: (0 <= k < lo || hi <= k < |w|) ==> w'[k] == w[k]
  {
    assert forall k :: 0 <= k < lo ==> w'[..lo][k] == w'[k] && w[..lo][k] == w[k];
    assert forall k :: hi <= k < |w| ==> w'[hi..][k - hi] == w'[k] && w[hi..][k - hi] == w[k];
  }

  lemma LeftOutLast(w: seq<World>, w2: seq<World>, left: nat, right: nat)
    requires left < right < |w| == |w2| && Permutes(w, w2, left, right)
    ensures InOrder(w2, left, right + 1)
            <==> InOrder(w2, left, right) && AllAtLeast(w, left, right + 1, w[right].z)
  {
    Outside(w, w2, left, right);
    SameBounds(w, w2, left, right, w[right].z);
    hide Permutes;
  }

  lemma LeftOutFirst(w: seq<World>, w2: seq<World>, left: nat, right: nat)
    requires left < right < |w| == |w2| && Permutes(w, w2, left + 1, right + 1)
    ensures InOrder(w2, left, right + 1)
            <==> InOrder(w2, left + 1, right + 1) && AllAtMost(w, left, right + 1, w[left].z)
  {
    Outside(w, w2, left + 1, right + 1);
    SameBounds(w, w2, left + 1, right + 1, w[left].z);
    hide Permutes;
  }

  lemma Separated(w: seq<World>, left: nat, right: nat)
    requires left < right < |w|
    requires var p := Pivot(w, left, right); !AllAbove(w, left, right, p) && !AllBelow(w, left, right, p)
    ensures var c, p := Parted(w, left, right), Pivot(w, left, right);
            AllAtLeast(c.w, left, c.i, p) && AllAtMost(c.w, c.j + 1, right + 1, p)
  {
    var p := Pivot(w, left, right);
    var stopI: nat :| left <= stopI <= right && w[stopI].z <= p;
    var stopJ: nat :| left <= stopJ <= right && w[stopJ].z >= p;
    hide Passes;
    PassesSeparate(w, p, left, right, left, right, stopI, stopJ);
  }

  lemma OrderOfParts(w: seq<World>, w1: seq<World>, w2: seq<World>, left: nat, right: nat,
                     i: nat, j: int, p: real)
    requires left <= j + 1 <= i <= right + 1 <= |w| == |w1| == |w2|
    requires AllAtLeast(w, left, i, p) && AllAtMost(w, j + 1, right + 1, p)
    requires Permutes(w, w1, left, j + 1) && Permutes(w1, w2, i, right + 1)
    ensures InOrder(w2, left, right + 1) <==> InOrder(w1, left, j + 1) && InOrder(w2, i, right + 1)
  {
    LowerBounds(w, w1, w2, left, right, i, j, p);
    UpperBounds(w, w1, w2, left, right, i, j, p);
    Outside(w1, w2, i, right + 1);
    hide Permutes, AllAtLeast, AllAtMost;
    assert InOrder(w1, left, j + 1) <==> InOrder(w2, left, j + 1);
    hide InOrder;
    Around(w2, left, right + 1, i, j + 1, p);
  }

  lemma LowerBounds(w: seq<World>, w1: seq<World>, w2: seq<World>, left: nat, right: nat,
                    i: nat, j: int, p: real)
    requires left <= j + 1 <= i <= right + 1 <= |w| == |w1| == |w2| && AllAtLeast(w, left, i, p)
    requires Permutes(w, w1, left, j + 1) && Permutes(w1, w2, i, right + 1)
    ensures AllAtLeast(w2, left, i, p)
  {
    SameBounds(w, w1, left, j + 1, p);
    Outside(w, w1, left, j + 1);
    Outside(w1, w2, i, right + 1);
    hide Permutes;
  }

  lemma UpperBounds(w: seq<World>, w1: seq<World>, w2: seq<World>, left: nat, right: nat,
                    i: nat, j: int, p: real)
    requires left <= j + 1 <= i <= right + 1 <= |w| == |w1| == |w2| && AllAtMost(w, j + 1, right + 1, p)
    requires Permutes(w, w1, left, j + 1) && Permutes(w1, w2, i, right + 1)
    ensures AllAtMost(w2, j + 1, right + 1, p)
  {
    hide Permutes, AllAtLeast;
    Outside(w, w1, left, j + 1);
    assert AllAtMost(w1, i, right + 1, p);
    SameBounds(w1, w2, i, right + 1, p);
    Outside(w1, w2, i, right + 1);
    forall k | j + 1 <= k <= right ensures w2[k].z <= p {
      if k < i {
        assert w2[k] == w1[k] && w1[k] == w[k];
      }
    }
  }

  lemma Around(w: seq<World>, lo: nat, hi: nat, i: nat, k: nat, p: real)
    requires lo <= k <= i <= hi <= |w| && AllAtLeast(w, lo, i, p) && AllAtMost(w, k, hi, p)
    ensures InOrder(w, lo, hi) <==> InOrder(w, lo, k) && InOrder(w, i, hi)
  {}

  /** What one call makes of its slice, given what its recursive calls make of theirs. */
  lemma OneCall(w: seq<World>, w1: seq<World>, w2: seq<World>, left: nat, right: nat)
    requires left < right < |w| == |w1| == |w2|
    requires var c := Parted(w, left, right);
             Permutes(c.w, w1, left, c.j + 1) && Permutes(w1, w2, c.i, right + 1)
    ensures var c := Parted(w, left, right);
            InOrder(w2, left, right + 1)
            <==> LeavesExtreme(w, left, right, Pivot(w, left, right))
                 && InOrder(w1, left, c.j + 1) && InOrder(w2, c.i, right + 1)
  {
    var c, p := Parted(w, left, right), Pivot(w, left, right);
    BeyondMovesNothing(w, left, right);
    hide Permutes, Parted, Pivot, Passes, InOrder, AllAtLeast, AllAtMost, AllAbove, AllBelow;
    if AllAbove(w, left, right, p) {
      NotBoth(w, left, right, p);
      Trivially(w1, w2, right + 1);
      LeftOutLast(w, w1, left, right);
    } else if AllBelow(w, left, right, p) {
      Trivially(w, w1, left);
      LeftOutFirst(w, w2, left, right);
    } else {
      Separated(w, left, right);
      OrderOfParts(c.w, w1, w2, left, right, c.i, c.j, p);
    }
  }

  lemma NotBoth(w: seq<World>, left: nat, right: nat, p: real)
    requires left <= right < |w| && AllAbove(w, left, right, p)
    ensures !AllBelow(w, left, right, p)
  {
    assert w[left].z > p;
  }

  lemma Trivially(w: seq<World>, w': seq<World>, k: nat)
    requires k <= |w| == |w'| && Permutes(w, w', k, k)
    ensures w' == w && InOrder(w', k, k)
  {
    assert w == w[..k] + w[k..] && w' == w'[..k] + w'[k..];
  }

  // A call depends on its own slice only.

  predicate Agree(w: seq<World>, v: seq<World>, left: nat, right: int)
    requires right < |w| == |v|
  {
    forall k :: left <= k <= right ==> w[k] == v[k]
  }

  lemma {:induction false} UpAgrees(w: seq<World>, v: seq<World>, p: real, i: nat, left: nat, right: nat)
    requires left <= i <= right < |w| == |v| && Agree(w, v, left, right)
    ensures UpFrom(w, p, i, right) == UpFrom(v, p, i, right)
    decreases right - i
  {
    if i < right {
      UpAgrees(w, v, p, i + 1, left, right);
    }
  }

  lemma {:induction false} DownAgrees(w: seq<World>, v: seq<World>, p: real, left: nat, j: nat, right: nat)
    requires left <= j <= right < |w| == |v| && Agree(w, v, left, right)
    ensures DownFrom(w, p, left, j) == DownFrom(v, p, left, j)
    decreases j
  {
    if j > left {
      DownAgrees(w, v, p, left, j - 1, right);
    }
  }

  predicate CutsAgree(c: Cut, d: Cut, left: nat, right: nat)
    requires right < |c.w| == |d.w|
  {
    c.i == d.i && c.j == d.j && Agree(c.w, d.w, left, right)
  }

  lemma PassAgrees(w: seq<World>, v: seq<World>, p: real, left: nat, right: nat, i: nat, j: nat)
    requires left < right < |w| == |v| && i <= j && Moved(left, right, i, j) && Agree(w, v, left, right)
    ensures CutsAgree(Pass(w, p, left, right, i, j), Pass(v, p, left, right, i, j), left, right)
  {
    UpAgrees(w, v, p, i, left, right);
    DownAgrees(w, v, p, left, j, right);
  }

  lemma {:induction false} PassesAgree(w: seq<World>, v: seq<World>, p: real, left: nat, right: nat, i: nat, j: int)
    requires left < right < |w| == |v| && Moved(left, right, i, j) && Agree(w, v, left, right)
    ensures CutsAgree(Passes(w, p, left, right, i, j), Passes(v, p, left, right, i, j), left, right)
    decreases j + 1 - i
  {
    hide Pass, Agree;
    if i <= j {
      PassAgrees(w, v, p, left, right, i, j);
      var c, d := Pass(w, p, left, right, i, j), Pass(v, p, left, right, i, j);
      PassesAgree(c.w, d.w, p, left, right, c.i, c.j);
    }
  }

  lemma PartedAgrees(w: seq<World>, v: seq<World>, left: nat, right: nat)
    requires left < right < |w| == |v| && Agree(w, v, left, right)
    ensures Pivot(w, left, right) == Pivot(v, left, right)
    ensures CutsAgree(Parted(w, left, right), Parted(v, left, right), left, right)
  {
    hide Passes;
    PassesAgree(w, v, Pivot(w, left, right), left, right, left, right);
  }

  lemma ExtremesAgree(w: seq<World>, v: seq<World>, left: nat, right: nat, p: real)
    requires left <= right < |w| == |v| && Agree(w, v, left, right)
    ensures LeavesExtreme(w, left, right, p) == LeavesExtreme(v, left, right, p)
  {
    assert AllAbove(w, left, right, p) == AllAbove(v, left, right, p);
    assert AllBelow(w, left, right, p) == AllBelow(v, left, right, p);
    assert AllAtLeast(w, left, right + 1, w[right].z) == AllAtLeast(v, left, right + 1, v[right].z);
    assert AllAtMost(w, left, right + 1, w[left].z) == AllAtMost(v, left, right + 1, v[left].z);
  }

  lemma {:induction false} SuccessAgrees(w: seq<World>, v: seq<World>, left: nat, right: int)
    requires left <= right + 1 <= |w| == |v| && Agree(w, v, left, right)
    ensures Succeeds(w, left, right) == Succeeds(v, left, right)
    decreases right + 1 - left
  {
    hide Parted, LeavesExtreme, Pivot;
    if left < right {
      PartedAgrees(w, v, left, right);
      ExtremesAgree(w, v, left, right, Pivot(w, left, right));
      var c, d := Parted(w, left, right), Parted(v, left, right);
      if left < c.j {
        SuccessAgrees(c.w, d.w, left, c.j);
      }
      if c.i < right {
        SuccessAgrees(c.w, d.w, c.i, right);
      }
    }
  }

  lemma BeyondAgree(w: seq<World>, v: seq<World>, lo: nat, hi: nat, from: nat, to: nat)
    requires lo <= hi <= from <= to < |w| == |v| && Permutes(w, v, lo, hi)
    ensures Agree(v, w, from, to)
  {
    Outside(w, v, lo, hi);
  }

  /** The point sort sorts its slice exactly if it succeeds in this sense. */
  lemma {:induction false} SortsExactly(w: seq<World>, left: nat, right: int)
    requires left <= right + 1 <= |w|
    ensures InOrder(Sorted(w, left, right), left, right + 1) <==> Succeeds(w, left, right)
    decreases right + 1 - left
  {
    hide Parted, Permutes, LeavesExtreme, Pivot, Agree;
    if left < right {
      var c := Parted(w, left, right);
      var w1 := if left < c.j then Sorted(c.w, left, c.j) else c.w;
      var w2 := if c.i < right then Sorted(w1, c.i, right) else w1;
      PartPermutes(c.w, w1, left, c.j);
      PartPermutes(w1, w2, c.i, right);
      OneCall(w, w1, w2, left, right);
      if left < c.j {
        SortsExactly(c.w, left, c.j);
      }
      if c.i < right {
        SortsExactly(w1, c.i, right);
        BeyondAgree(c.w, w1, left, c.j + 1, c.i, right);
        SuccessAgrees(w1, c.w, c.i, right);
      }
    }
  }

  // --------------------------------------------------- input that is in order

  /** The same Z everywhere. */
  predicate SameZ(w: seq<World>, v: seq<World>) {
    |w| == |v| && forall k :: 0 <= k < |w| ==> w[k].z == v[k].z
  }

  lemma PassKeepsZ(w: seq<World>, p: real, left: nat, right: nat, i: nat, j: nat)
    requires left < right < |w| && i <= j && Moved(left, right, i, j) && InOrder(w, left, right + 1)
    ensures SameZ(w, Pass(w, p, left, right, i, j).w)
  {
    var u, d := UpFrom(w, p, i, right), DownFrom(w, p, left, j);
    if u < d {
      assert w[u].z >= w[d].z;
    }
  }

  lemma {:induction false} PassesKeepZ(w: seq<World>, p: real, left: nat, right: nat, i: nat, j: int)
    requires left < right < |w| && Moved(left, right, i, j) && InOrder(w, left, right + 1)
    ensures SameZ(w, Passes(w, p, left, right, i, j).w)
    decreases j + 1 - i
  {
    hide Pass, Moved;
    if i <= j {
      PassKeepsZ(w, p, left, right, i, j);
      var c := Pass(w, p, left, right, i, j);
      PassesKeepZ(c.w, p, left, right, c.i, c.j);
    }
  }

  lemma {:induction false} SortedKeepsZ(w: seq<World>, left: nat, right: int)
    requires left <= right + 1 <= |w| && InOrder(w, left, right + 1)
    ensures SameZ(w, Sorted(w, left, right))
    decreases right + 1 - left
  {
    hide Passes, Pivot;
    if left < right {
      PassesKeepZ(w, Pivot(w, left, right), left, right, left, right);
      var c := Parted(w, left, right);
      var w1 := if left < c.j then Sorted(c.w, left, c.j) else c.w;
      if left < c.j {
        SortedKeepsZ(c.w, left, c.j);
      }
      if c.i < right {
        SortedKeepsZ(w1, c.i, right);
      }
    }
  }

  /** Input in order stays in order. */
  lemma OrderKept(w: seq<World>, left: nat, right: int)
    requires left <= right + 1 <= |w| && InOrder(w, left, right + 1)
    ensures InOrder(Sorted(w, left, right), left, right + 1)
  {
    hide Sorted;
    SortedKeepsZ(w, left, right);
  }

  // --------------------------------------------------------------- on the arrays

  /** The two arrays side by side. */
  function Zip(s: seq<Screen>, w: seq<World>): (r: seq<(Screen, World)>)
    requires |s| == |w|
    ensures |r| == |s| && forall k :: 0 <= k < |s| ==> r[k] == (s[k], w[k])
  {
    seq(|s|, k requires 0 <= k < |s| => (s[k], w[k]))
  }

  /** From one pair of arrays to another: within a slice both are rearranged in the same way,
      and nothing else changes. */
  ghost predicate Together(s: seq<Screen>, w: seq<World>, s': seq<Screen>, w': seq<World>, lo: nat, hi: nat) {
    lo <= hi <= |s| == |w| == |s'| == |w'| && Permutes(Zip(s, w), Zip(s', w'), lo, hi)
  }

  lemma TogetherSelf(s: seq<Screen>, w: seq<World>, lo: nat, hi: nat)
    requires lo <= hi <= |s| == |w|
    ensures Together(s, w, s, w, lo, hi)
  {}

  lemma TogetherTwice(s: seq<Screen>, w: seq<World>, s1: seq<Screen>, w1: seq<World>,
                      s2: seq<Screen>, w2: seq<World>, lo: nat, hi: nat, from: nat, to: nat)
    requires Together(s, w, s1, w1, from, to) && Together(s1, w1, s2, w2, lo, hi) && from <= lo && hi <= to
    ensures Together(s, w, s2, w2, from, to)
  {
    hide Permutes, Zip;
    PermutesWider(Zip(s1, w1), Zip(s2, w2), lo, hi, from, to);
    PermutesTwice(Zip(s, w), Zip(s1, w1), Zip(s2, w2), from, to);
  }

  lemma TogetherSwap(s: seq<Screen>, w: seq<World>, i: nat, j: nat, lo: nat, hi: nat)
    requires lo <= i <= j < hi <= |s| == |w|
    ensures Together(s, w, Exchange(s, i, j), Exchange(w, i, j), lo, hi)
  {
    hide Permutes;
    var t, u := Zip(s, w), Zip(Exchange(s, i, j), Exchange(w, i, j));
    assert u == Exchange(t, i, j);
    ExchangePermutes(t, i, j, lo, hi);
  }

  method ScanUp(a: array<World>, pivot: real, from: nat, right: nat) returns (i: nat)
    requires from <= right < a.Length
    ensures i == UpFrom(a[..], pivot, from, right)
  {
    i := from;
    while i < right && a[i].z > pivot
      invariant from <= i <= right && UpFrom(a[..], pivot, i, right) == UpFrom(a[..], pivot, from, right)
    {
      i := i + 1;
    }
  }

  method ScanDown(a: array<World>, pivot: real, left: nat, from: nat) returns (j: nat)
    requires left <= from < a.Length
    ensures j == DownFrom(a[..], pivot, left, from)
  {
    j := from;
    while j > left && a[j].z < pivot
      invariant left <= j <= from && DownFrom(a[..], pivot, left, j) == DownFrom(a[..], pivot, left, from)
    {
      j := j - 1;
    }
  }

  method Swap(screen: array<Screen>, a: array<World>, i: nat, j: nat)
    requires i <= j < a.Length == screen.Length
    modifies screen, a
    ensures screen[..] == Exchange(old(screen[..]), i, j) && a[..] == Exchange(old(a[..]), i, j)
  {
    var tempP := screen[i];
    screen[i] := screen[j];
    screen[j] := tempP;
    var tempW := a[i];
    a[i] := a[j];
    a[j] := tempW;
  }

  /** The body of the outer loop; both arrays undergo the same swap. */
  method OnePassOver(screen: array<Screen>, a: array<World>, pivot: real, left: nat, right: nat, i0: nat, j0: nat)
    returns (i: nat, j: int)
    requires left < right < a.Length == screen.Length && i0 <= j0 && Moved(left, right, i0, j0)
    modifies screen, a
    ensures Cut(a[..], i, j) == Pass(old(a[..]), pivot, left, right, i0, j0)
    ensures Together(old(screen[..]), old(a[..]), screen[..], a[..], left, right + 1)
  {
    hide Together, Exchange;
    ghost var s, w := screen[..], a[..];
    i := ScanUp(a, pivot, i0, right);
    j := ScanDown(a, pivot, left, j0);
    TogetherSelf(s, w, left, right + 1);
    if i <= j {
      TogetherSwap(s, w, i, j, left, right + 1);
      Swap(screen, a, i, j);
      i := i + 1;
      j := j - 1;
    }
  }

  method Partition(screen: array<Screen>, a: array<World>, left: nat, right: nat) returns (i: nat, j: int)
    requires left < right < a.Length == screen.Length
    modifies screen, a
    ensures Cut(a[..], i, j) == Parted(old(a[..]), left, right)
    ensures Together(old(screen[..]), old(a[..]), screen[..], a[..], left, right + 1)
  {
    hide Together, Pass;
    i, j := left, right;
    var pivot := a[(left + right) / 2].z / 2.0;
    ghost var s, w := screen[..], a[..];
    TogetherSelf(s, w, left, right + 1);
    while i <= j
      invariant Moved(left, right, i, j)
      invariant Passes(a[..], pivot, left, right, i, j) == Parted(w, left, right)
      invariant Together(s, w, screen[..], a[..], left, right + 1)
      decreases j + 1 - i
    {
      ghost var s1, w1 := screen[..], a[..];
      i, j := OnePassOver(screen, a, pivot, left, right, i, j);
      TogetherTwice(s, w, s1, w1, screen[..], a[..], left, right + 1, left, right + 1);
    }
  }

  /** The point sort comes to an end, and rearranges both arrays in the same way. */
  method SortPoints(screen: array<Screen>, a: array<World>, left: nat, right: int)
    requires left <= right + 1 <= a.Length == screen.Length
    modifies screen, a
    ensures a[..] == Sorted(old(a[..]), left, right)
    ensures Together(old(screen[..]), old(a[..]), screen[..], a[..], left, right + 1)
    decreases right + 1 - left
  {
    hide Together, Parted;
    ghost var s, w := screen[..], a[..];
    TogetherSelf(s, w, left, right + 1);
    if right > left {
      var i, j := Partition(screen, a, left, right);
      ghost var s1, w1 := screen[..], a[..];
      if left < j {
        SortPoints(screen, a, left, j);
        TogetherTwice(s, w, s1, w1, screen[..], a[..], left, j + 1, left, right + 1);
      }
      ghost var s2, w2 := screen[..], a[..];
      if i < right {
        SortPoints(screen, a, i, right);
        TogetherTwice(s, w, s2, w2, screen[..], a[..], i, right + 1, left, right + 1);
      }
    }
  }

  // ------------------------------------------------------- inputs it leaves alone

  /** Any two positive Z in the slice are within a factor of two of each other. */
  predicate Close(w: seq<World>, lo: nat, hi: nat)
    requires hi <= |w|
  {
    forall i, k :: lo <= i < hi && lo <= k < hi ==> w[i].z > w[k].z / 2.0 > 0.0
  }

  /** Then the sort does nothing at all. */
  lemma {:induction false} CloseUnmoved(w: seq<World>, left: nat, right: int)
    requires left <= right + 1 <= |w| && Close(w, left, right + 1)
    ensures Sorted(w, left, right) == w
    decreases right + 1 - left
  {
    hide Parted;
    if left < right {
      BeyondMovesNothing(w, left, right);
      CloseUnmoved(w, left, right - 1);
    }
  }

  /** So on such input it succeeds exactly if there is nothing to do. */
  lemma CloseSortsIff(w: seq<World>, left: nat, right: int)
    requires left <= right + 1 <= |w| && Close(w, left, right + 1)
    ensures InOrder(Sorted(w, left, right), left, right + 1) <==> InOrder(w, left, right + 1)
  {
    hide Sorted;
    CloseUnmoved(w, left, right);
  }

  /** The same for any factor. */
  predicate CloseBy(w: seq<World>, lo: nat, hi: nat, f: real)
    requires hi <= |w|
  {
    forall i, k :: lo <= i < hi && lo <= k < hi ==> w[i].z > 0.0 && w[k].z > 0.0 && w[i].z * f > w[k].z
  }

  ghost predicate LeftAlone(f: real) {
    forall w: seq<World>, left: nat, right: int ::
      (left <= right + 1 <= |w| && CloseBy(w, left, right + 1, f)) ==> Sorted(w, left, right) == w
  }

  /** Two is the largest factor for which that holds: the pivot is half a Z. */
  lemma FactorOfTwo(f: real)
    ensures LeftAlone(f) <==> f <= 2.0
  {
    if f <= 2.0 {
      forall w: seq<World>, left: nat, right: int | left <= right + 1 <= |w| && CloseBy(w, left, right + 1, f)
        ensures Sorted(w, left, right) == w
      {
        CloserIsClose(w, left, right + 1, f);
        CloseUnmoved(w, left, right);
      }
    } else {
      var w := Moves(f);
      assert !LeftAlone(f);
    }
  }

  lemma CloserIsClose(w: seq<World>, lo: nat, hi: nat, f: real)
    requires hi <= |w| && CloseBy(w, lo, hi, f) && f <= 2.0
    ensures Close(w, lo, hi)
  {
    forall i, k | lo <= i < hi && lo <= k < hi ensures w[i].z > w[k].z / 2.0 > 0.0 {
      assert w[i].z * f <= w[i].z * 2.0;
    }
  }

  /** Three points, the middle one a little more than twice as far as the others. */
  lemma Moves(f: real) returns (w: seq<World>)
    requires f > 2.0
    ensures |w| == 3 && CloseBy(w, 0, 3, f) && Sorted(w, 0, 2) != w
  {
    var x := if f < 4.0 then (2.0 + f) / 2.0 else 3.0;
    var a, b := World(0.0, 0.0, 1.0), World(0.0, 0.0, x);
    w := [a, b, a];
    assert 2.0 < x < f && x * f > x;
    hide Passes;
    FirstMoves(w, x);
    var w1 := [b, a, a];
    SortedPermutes(w1, 1, 2);
    Outside(w1, Sorted(w1, 1, 2), 1, 3);
  }

  lemma FirstMoves(w: seq<World>, x: real)
    requires x > 2.0 && |w| == 3 && w[0].z == 1.0 && w[1].z == x && w[2].z == 1.0
    ensures Parted(w, 0, 2) == Cut([w[1], w[0], w[2]], 1, 0)
  {
    assert UpFrom(w, x / 2.0, 0, 2) == 0;
    assert DownFrom(w, x / 2.0, 0, 2) == 1;
    assert Exchange(w, 0, 1) == [w[1], w[0], w[2]];
    assert (0 + 2) / 2 == 1 && Pivot(w, 0, 2) == x / 2.0;
    hide Passes;
    OnePass(w, 0, 2);
  }

  /** For example it fails on 6, 10. */
  lemma SixTen(w: seq<World>)
    requires |w| == 2 && w[0].z == 6.0 && w[1].z == 10.0
    ensures Sorted(w, 0, 1) == w && !InOrder(Sorted(w, 0, 1), 0, 2)
  {
    CloseUnmoved(w, 0, 1);
    assert w[0].z < w[1].z;
  }
}
