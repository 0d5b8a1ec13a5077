/** The depth sorts of the 3D renderer: farthest first, by quicksort in place.  Z coordinates
    are reals. */
module QuickSort {

  // ------------------------------------------------------------------ the keys

  datatype Edge = Edge(a: nat, b: nat)

  /** Average Z of an edge, given the Z of every point. */
  function EdgeZ(world: nat -> real): Edge -> real {
    (e: Edge) => (world(e.a) + world(e.b)) / 2.0
  }

  function SumZ(world: nat -> real, vertices: seq<nat>): real {
    if vertices == [] then 0.0 else SumZ(world, vertices[..|vertices| - 1]) + world(vertices[|vertices| - 1])
  }

  /** The points of a face; there is at least one. */
  type Face = vertices: seq<nat> | vertices != [] witness [0]

  function FaceZ(world: nat -> real): Face -> real {
    (f: Face) => SumZ(world, f) / |f| as real
  }

  method AverageZ(world: nat -> real, f: Face) returns (r: real)
    ensures r == FaceZ(world)(f)
  {
    var count := 0.0;
    for i := 0 to |f|
      invariant count == SumZ(world, f[..i])
    {
      assert f[..i + 1][..i] == f[..i];
      count := count + world(f[i]);
    }
    assert f[..|f|] == f;
    r := count / |f| as real;
  }

  /** How far a value lies from the Z of the points, summed up. */
  function Deviation(world: nat -> real, vertices: seq<nat>, v: real): real {
    if vertices == [] then 0.0
    else Deviation(world, vertices[..|vertices| - 1], v) + (world(vertices[|vertices| - 1]) - v)
  }

  lemma {:induction false} DeviationIs(world: nat -> real, vertices: seq<nat>, v: real)
    ensures Deviation(world, vertices, v) == SumZ(world, vertices) - |vertices| as real * v
  {
    if vertices != [] {
      var n := |vertices| - 1;
      DeviationIs(world, vertices[..n], v);
      assert |vertices| as real * v == n as real * v + v;
    }
  }

  /** The key of a face is the average of its Z: the one value from which they deviate by nothing
      in all.  That of an edge is the same for its two points. */
  lemma AverageBalances(world: nat -> real, f: Face, v: real)
    ensures Deviation(world, f, v) == 0.0 <==> v == FaceZ(world)(f)
  {
    DeviationIs(world, f, v);
    Quotient(SumZ(world, f), |f| as real, v);
  }

  lemma Quotient(s: real, n: real, v: real)
    requires n > 0.0
    ensures s / n == v <==> s == n * v
  {
    var q := s / n;
    assert s == n * q;
    if s == n * v {
      assert n * (q - v) == 0.0;
    }
  }

  lemma EdgeIsFace(world: nat -> real, e: Edge)
    ensures EdgeZ(world)(e) == FaceZ(world)([e.a, e.b])
  {
    var f := [e.a, e.b];
    assert f[..1] == [e.a] && [e.a][..0] == [];
    assert SumZ(world, [e.a]) == world(e.a);
  }

  // ---------------------------------------------------------------- the result

  predicate Descending<T(!new)>(z: T -> real, s: seq<T>) {
    forall i, j :: 0 <= i < j < |s| ==> z(s[i]) >= z(s[j])
  }

  /** From `s` to `t`: the slice from `lo` to before `hi` is sorted, farthest first, by
      rearranging it, and nothing else changes. */
  ghost predicate Sorts<T(!new)>(z: T -> real, s: seq<T>, t: seq<T>, lo: nat, hi: nat) {
    lo <= hi <= |s| == |t| && Descending(z, t[lo..hi]) && Permutes(s, t, lo, hi)
  }

  ghost predicate Permutes<T>(s: seq<T>, t: seq<T>, lo: nat, hi: nat)
    requires lo <= hi <= |s| == |t|
  {
    multiset(t[lo..hi]) == multiset(s[lo..hi]) && t[..lo] == s[..lo] && t[hi..] == s[hi..]
  }

  /** From `s` to `t`: the slice is rearranged around a pivot; keys before `i` are at least
      the pivot's, those after `j` at most. */
  ghost predicate Parts<T(!new)>(z: T -> real, s: seq<T>, t: seq<T>, lo: nat, hi: nat, i: nat, j: int, p: real) {
    lo <= j + 1 <= i <= hi <= |s| == |t| && Permutes(s, t, lo, hi)
    && AtLeast(z, t[lo..i], p) && AtMost(z, t[j + 1..hi], p)
  }

  predicate AtLeast<T>(z: T -> real, s: seq<T>, p: real) {
    forall i :: 0 <= i < |s| ==> z(s[i]) >= p
  }

  predicate AtMost<T>(z: T -> real, s: seq<T>, p: real) {
    forall i :: 0 <= i < |s| ==> z(s[i]) <= p
  }

  lemma Rearranged<T>(z: T -> real, s: seq<T>, t: seq<T>, p: real)
    requires multiset(s) == multiset(t)
    ensures AtLeast(z, s, p) ==> AtLeast(z, t, p)
    ensures AtMost(z, s, p) ==> AtMost(z, t, p)
  {
    forall i | 0 <= i < |t| ensures t[i] in s {
      assert t[i] in multiset(t);
    }
  }

  /** Descending parts around a pivot, with only the pivot's key between them. */
  lemma Joined<T(!new)>(z: T -> real, s: seq<T>, m: nat, n: nat, p: real)
    requires m <= n <= |s| && Descending(z, s[..m]) && Descending(z, s[n..])
    requires AtLeast(z, s[..n], p) && AtMost(z, s[m..], p)
    ensures Descending(z, s)
  {
    forall i, j | 0 <= i < j < |s| ensures z(s[i]) >= z(s[j]) {
      if j < m {
        assert s[..m][i] == s[i] && s[..m][j] == s[j];
      } else if i >= n {
        assert s[n..][i - n] == s[i] && s[n..][j - n] == s[j];
      } else {
        assert s[..n][i] == s[i] && s[m..][j - m] == s[j];
      }
    }
  }

  // -------------------------------------------------------- the edge and face sorts

  /** From `from` up, the first element not above the pivot.  Where there is one, as the
      ghost says, the guard never cuts the scan short. */
  method ScanUp<T>(a: array<T>, z: T -> real, pivot: real, from: nat, right: nat, ghost stop: nat) returns (i: nat)
    requires from <= stop <= right < a.Length && z(a[stop]) <= pivot
    ensures from <= i <= stop && z(a[i]) <= pivot
    ensures forall k :: from <= k < i ==> z(a[k]) > pivot
  {
    i := from;
    while i < right && z(a[i]) > pivot
      invariant from <= i <= stop
      invariant forall k :: from <= k < i ==> z(a[k]) > pivot
    {
      i := i + 1;
    }
  }

  /** From `from` down, the first element not below the pivot. */
  method ScanDown<T>(a: array<T>, z: T -> real, pivot: real, left: nat, from: nat, ghost stop: nat) returns (j: nat)
    requires left <= stop <= from < a.Length && z(a[stop]) >= pivot
    ensures stop <= j <= from && z(a[j]) >= pivot
    ensures forall k :: j < k <= from ==> z(a[k]) < pivot
  {
    j := from;
    while j > left && z(a[j]) < pivot
      invariant stop <= j <= from
      invariant forall k :: j < k <= from ==> z(a[k]) < pivot
    {
      j := j - 1;
    }
  }

  /** Where a partition stands: what lies outside `i..j` is placed, and while they have not
      crossed there are elements that stop both scans. */
  predicate Placed<T>(z: T -> real, s: seq<T>, left: nat, right: nat, i: nat, j: int, p: real,
                      stopI: nat, stopJ: nat)
  {
    left <= i <= right + 1 <= |s| && left <= j + 1 <= right + 1
    && ((i == left && j == right) || (left < i && j < right))
    && (i <= j ==> i <= stopI <= right && z(s[stopI]) <= p && left <= stopJ <= j && z(s[stopJ]) >= p)
    && (forall k :: left <= k < i ==> z(s[k]) >= p)
    && (forall k :: j < k <= right ==> z(s[k]) <= p)
  }

  /** The body of the outer loop: two scans and a swap. */
  method Pass<T>(a: array<T>, z: T -> real, pivot: real, left: nat, right: nat, i0: nat, j0: int,
                 ghost stopI0: nat, ghost stopJ0: nat)
    returns (i: nat, j: int, ghost stopI: nat, ghost stopJ: nat)
    requires left < right < a.Length && i0 <= j0
    requires Placed(z, a[..], left, right, i0, j0, pivot, stopI0, stopJ0)
    modifies a
    ensures Placed(z, a[..], left, right, i, j, pivot, stopI, stopJ) && j - i < j0 - i0
    ensures Permutes(old(a[..]), a[..], left, right + 1)
    ensures left < i && j < right
  {
    hide Permutes;
    ghost var s := a[..];
    stopI, stopJ := stopI0, stopJ0;
    i := ScanUp(a, z, pivot, i0, right, stopI0);
    j := ScanDown(a, z, pivot, left, j0, stopJ0);
    PermutesSelf(s, left, right + 1);
    if i <= j {
      Swap(a, left, right, i, j);
      Swapped(z, s, a[..], left, right, i, j, i0, j0, pivot);
      stopI, stopJ := j, i;
      i := i + 1;
      j := j - 1;
    }
  }

  lemma Swapped<T>(z: T -> real, s: seq<T>, t: seq<T>, left: nat, right: nat, i: nat, j: nat,
                   i0: nat, j0: nat, p: real)
    requires left <= i0 <= i <= j <= j0 <= right < |s| == |t| && t == s[i := s[j]][j := s[i]]
    requires z(s[i]) <= p <= z(s[j])
    requires forall k :: left <= k < i ==> z(s[k]) >= p
    requires forall k :: j < k <= right ==> z(s[k]) <= p
    ensures forall k :: left <= k <= i ==> z(t[k]) >= p
    ensures forall k :: j <= k <= right ==> z(t[k]) <= p
  {}

  /** The outer loop over a slice. */
  method Partition<T(!new)>(a: array<T>, z: T -> real, left: nat, right: nat)
    returns (i: nat, j: int, ghost p: real)
    requires left < right < a.Length
    modifies a
    ensures left - 1 <= j < right && left < i <= right + 1
    ensures Parts(z, old(a[..]), a[..], left, right + 1, i, j, p)
  {
    hide Permutes, AtLeast, AtMost;
    i, j := left, right;
    var pivot := z(a[(left + right) / 2]);
    p := pivot;
    ghost var s := a[..];
    PermutesSelf(s, left, right + 1);
    ghost var stopI: nat, stopJ: nat := (left + right) / 2, (left + right) / 2;
    while i <= j
      invariant Placed(z, a[..], left, right, i, j, p, stopI, stopJ)
      invariant Permutes(s, a[..], left, right + 1)
      decreases j + 1 - i
    {
      hide Placed;
      ghost var t := a[..];
      i, j, stopI, stopJ := Pass(a, z, pivot, left, right, i, j, stopI, stopJ);
      PermutesTwice(s, t, a[..], left, right + 1);
    }
    Bounds(z, a[..], left, right + 1, i, j, p);
  }

  method Swap<T>(a: array<T>, ghost left: nat, ghost right: nat, i: nat, j: nat)
    requires left <= i <= j <= right < a.Length
    modifies a
    ensures a[..] == old(a[..])[i := old(a[j])][j := old(a[i])]
    ensures Permutes(old(a[..]), a[..], left, right + 1)
  {
    ghost var s := a[..];
    var temp := a[i];
    a[i] := a[j];
    a[j] := temp;
    ghost var was := s[left..right + 1];
    assert a[left..right + 1] == was[i - left := was[j - left]][j - left := was[i - left]];
  }

  lemma PermutesSelf<T>(s: seq<T>, lo: nat, hi: nat)
    requires lo <= hi <= |s|
    ensures Permutes(s, s, lo, hi)
  {}

  lemma PermutesTwice<T>(s: seq<T>, t: seq<T>, u: seq<T>, lo: nat, hi: nat)
    requires lo <= hi <= |s| == |t| == |u| && Permutes(s, t, lo, hi) && Permutes(t, u, lo, hi)
    ensures Permutes(s, u, lo, hi)
  {}

  lemma Bounds<T>(z: T -> real, s: seq<T>, lo: nat, hi: nat, i: nat, j: int, p: real)
    requires lo <= j + 1 <= i <= hi <= |s|
    requires forall k :: lo <= k < i ==> z(s[k]) >= p
    requires forall k :: j < k < hi ==> z(s[k]) <= p
    ensures AtLeast(z, s[lo..i], p) && AtMost(z, s[j + 1..hi], p)
  {}

  /** Slices of an array of which only the part before, or after, a cut has changed. */
  lemma ChangedBefore<T>(s: seq<T>, t: seq<T>, lo: nat, cut: nat, hi: nat)
    requires lo <= cut <= hi <= |s| && |t| == |s| && t[cut..] == s[cut..]
    ensures t[lo..hi][..cut - lo] == t[lo..cut] && s[lo..hi][..cut - lo] == s[lo..cut]
    ensures t[lo..hi][cut - lo..] == s[lo..hi][cut - lo..]
  {
    assert t[lo..hi][cut - lo..] == t[cut..][..hi - cut];
    assert s[lo..hi][cut - lo..] == s[cut..][..hi - cut];
  }

  lemma ChangedAfter<T>(s: seq<T>, t: seq<T>, lo: nat, cut: nat, hi: nat)
    requires lo <= cut <= hi <= |s| && |t| == |s| && t[..cut] == s[..cut]
    ensures t[lo..hi][..cut - lo] == s[lo..hi][..cut - lo]
    ensures t[lo..hi][cut - lo..] == t[cut..hi] && s[lo..hi][cut - lo..] == s[cut..hi]
  {
    assert t[lo..hi][..cut - lo] == t[..cut][lo..];
    assert s[lo..hi][..cut - lo] == s[..cut][lo..];
  }

  /** What a recursive call on the first m elements, then one from the n-th on, make of a
      slice. */
  lemma Rearranges<T>(s0: seq<T>, s1: seq<T>, s2: seq<T>, m: nat, n: nat)
    requires m <= n <= |s0| && |s1| == |s0| && |s2| == |s0|
    requires s1[m..] == s0[m..] && multiset(s1[..m]) == multiset(s0[..m])
    requires s2[..n] == s1[..n] && multiset(s2[n..]) == multiset(s1[n..])
    ensures multiset(s2) == multiset(s1) == multiset(s0)
  {
    assert s0 == s0[..m] + s0[m..] && s1 == s1[..m] + s1[m..];
    assert s1 == s1[..n] + s1[n..] && s2 == s2[..n] + s2[n..];
  }

  lemma KeepsParts<T>(z: T -> real, s0: seq<T>, s1: seq<T>, s2: seq<T>, m: nat, n: nat, p: real)
    requires m <= n <= |s0| && |s1| == |s0| && |s2| == |s0|
    requires AtLeast(z, s0[..n], p) && AtMost(z, s0[m..], p)
    requires s1[m..] == s0[m..] && multiset(s1[..m]) == multiset(s0[..m])
    requires s2[..n] == s1[..n] && multiset(s2[n..]) == multiset(s1[n..])
    ensures AtLeast(z, s2[..n], p) && AtMost(z, s2[m..], p)
  {
    var mid := s0[m..][..n - m];
    assert s0[..n] == s0[..m] + mid;
    assert s1[..n] == s1[..m] + s1[m..][..n - m];
    Rearranged(z, s0[..n], s2[..n], p);
    assert s0[m..] == mid + s0[m..][n - m..];
    assert s1[n..] == s1[m..][n - m..];
    assert s2[m..] == s2[..n][m..] + s2[n..] && s1[..n][m..] == s1[m..][..n - m];
    Rearranged(z, s0[m..], s2[m..], p);
  }

  lemma BothSorted<T(!new)>(z: T -> real, s0: seq<T>, s1: seq<T>, s2: seq<T>, m: nat, n: nat, p: real)
    requires m <= n <= |s0| && |s1| == |s0| && |s2| == |s0|
    requires AtLeast(z, s0[..n], p) && AtMost(z, s0[m..], p)
    requires s1[m..] == s0[m..] && multiset(s1[..m]) == multiset(s0[..m]) && Descending(z, s1[..m])
    requires s2[..n] == s1[..n] && multiset(s2[n..]) == multiset(s1[n..]) && Descending(z, s2[n..])
    ensures Descending(z, s2) && multiset(s2) == multiset(s0)
  {
    Rearranges(s0, s1, s2, m, n);
    KeepsParts(z, s0, s1, s2, m, n, p);
    assert s2[..m] == s2[..n][..m] && s1[..m] == s1[..n][..m];
    Joined(z, s2, m, n, p);
  }

  lemma SortedByParts<T(!new)>(z: T -> real, s: seq<T>, t0: seq<T>, t1: seq<T>, t2: seq<T>,
                               lo: nat, hi: nat, i: nat, j: int, p: real)
    requires Parts(z, s, t0, lo, hi, i, j, p)
    requires Sorts(z, t0, t1, lo, j + 1) && Sorts(z, t1, t2, i, hi)
    ensures Sorts(z, s, t2, lo, hi)
  {
    hide Descending, AtLeast, AtMost;
    Inside(z, t0, t1, t2, lo, hi, i, j + 1, p);
    Outside(t0, t1, t2, lo, hi, i, j + 1);
  }

  lemma Inside<T(!new)>(z: T -> real, t0: seq<T>, t1: seq<T>, t2: seq<T>,
                        lo: nat, hi: nat, i: nat, k: nat, p: real)
    requires lo <= k <= i <= hi <= |t0| == |t1| == |t2|
    requires AtLeast(z, t0[lo..i], p) && AtMost(z, t0[k..hi], p)
    requires t1[k..] == t0[k..] && multiset(t1[lo..k]) == multiset(t0[lo..k]) && Descending(z, t1[lo..k])
    requires t2[..i] == t1[..i] && multiset(t2[i..hi]) == multiset(t1[i..hi]) && Descending(z, t2[i..hi])
    ensures Descending(z, t2[lo..hi]) && multiset(t2[lo..hi]) == multiset(t0[lo..hi])
  {
    hide Descending, AtLeast, AtMost;
    ChangedBefore(t0, t1, lo, k, hi);
    ChangedAfter(t1, t2, lo, i, hi);
    assert t0[lo..hi][..i - lo] == t0[lo..i];
    assert t0[lo..hi][k - lo..] == t0[k..hi];
    BothSorted(z, t0[lo..hi], t1[lo..hi], t2[lo..hi], k - lo, i - lo, p);
  }

  lemma Outside<T>(t0: seq<T>, t1: seq<T>, t2: seq<T>, lo: nat, hi: nat, i: nat, k: nat)
    requires lo <= k <= i <= hi <= |t0| == |t1| == |t2|
    requires t1[..lo] == t0[..lo] && t1[k..] == t0[k..] && t2[..i] == t1[..i] && t2[hi..] == t1[hi..]
    ensures t2[..lo] == t0[..lo] && t2[hi..] == t0[hi..]
  {
    assert t2[..lo] == t2[..i][..lo] && t1[..lo] == t1[..i][..lo];
    assert t1[hi..] == t1[k..][hi - k..] && t0[hi..] == t0[k..][hi - k..];
  }

  lemma Trivial<T(!new)>(z: T -> real, s: seq<T>, lo: nat, hi: nat)
    requires lo <= hi <= |s| && hi <= lo + 1
    ensures Sorts(z, s, s, lo, hi)
  {}

  /** The quicksort by a key: `right` is the last index, or one less than `left` if there is
      nothing to sort. */
  method Sort<T(!new)>(a: array<T>, z: T -> real, left: nat, right: int)
    requires left <= right + 1 <= a.Length
    modifies a
    ensures Sorts(z, old(a[..]), a[..], left, right + 1)
    decreases right + 1 - left
  {
    hide Sorts, Parts;
    ghost var s := a[..];
    if right > left {
      var i, j, p := Partition(a, z, left, right);
      ghost var t0 := a[..];
      if left < j {
        Sort(a, z, left, j);
      } else {
        Trivial(z, t0, left, j + 1);
      }
      ghost var t1 := a[..];
      if i < right {
        Sort(a, z, i, right);
      } else {
        Trivial(z, t1, i, right + 1);
      }
      SortedByParts(z, s, t0, t1, a[..], left, right + 1, i, j, p);
    } else {
      Trivial(z, s, left, right + 1);
    }
  }

  /** The sort of edges by their average Z. */
  method SortEdges(world: nat -> real, a: array<Edge>, left: nat, right: int)
    requires left <= right + 1 <= a.Length
    modifies a
    ensures Sorts(EdgeZ(world), old(a[..]), a[..], left, right + 1)
  {
    Sort(a, EdgeZ(world), left, right);
  }

  // The sort of faces sums up the points of a face anew at every step of a scan.

  method ScanFacesUp(world: nat -> real, a: array<Face>, pivot: real, from: nat, right: nat, ghost stop: nat)
    returns (i: nat)
    requires from <= stop <= right < a.Length && FaceZ(world)(a[stop]) <= pivot
    ensures from <= i <= stop && FaceZ(world)(a[i]) <= pivot
    ensures forall k :: from <= k < i ==> FaceZ(world)(a[k]) > pivot
  {
    hide FaceZ;
    i := from;
    var test := AverageZ(world, a[i]);
    while i < right && test > pivot
      invariant from <= i <= stop && test == FaceZ(world)(a[i])
      invariant forall k :: from <= k < i ==> FaceZ(world)(a[k]) > pivot
    {
      i := i + 1;
      test := AverageZ(world, a[i]);
    }
  }

  method ScanFacesDown(world: nat -> real, a: array<Face>, pivot: real, left: nat, from: nat, ghost stop: nat)
    returns (j: nat)
    requires left <= stop <= from < a.Length && FaceZ(world)(a[stop]) >= pivot
    ensures stop <= j <= from && FaceZ(world)(a[j]) >= pivot
    ensures forall k :: j < k <= from ==> FaceZ(world)(a[k]) < pivot
  {
    hide FaceZ;
    j := from;
    var test := AverageZ(world, a[j]);
    while j > left && test < pivot
      invariant stop <= j <= from && test == FaceZ(world)(a[j])
      invariant forall k :: j < k <= from ==> FaceZ(world)(a[k]) < pivot
    {
      j := j - 1;
      test := AverageZ(world, a[j]);
    }
  }

  method PassFaces(world: nat -> real, a: array<Face>, pivot: real, left: nat, right: nat, i0: nat, j0: int,
                   ghost stopI0: nat, ghost stopJ0: nat)
    returns (i: nat, j: int, ghost stopI: nat, ghost stopJ: nat)
    requires left < right < a.Length && i0 <= j0
    requires Placed(FaceZ(world), a[..], left, right, i0, j0, pivot, stopI0, stopJ0)
    modifies a
    ensures Placed(FaceZ(world), a[..], left, right, i, j, pivot, stopI, stopJ) && j - i < j0 - i0
    ensures Permutes(old(a[..]), a[..], left, right + 1)
    ensures left < i && j < right
  {
    hide Permutes, FaceZ;
    ghost var s := a[..];
    stopI, stopJ := stopI0, stopJ0;
    i := ScanFacesUp(world, a, pivot, i0, right, stopI0);
    j := ScanFacesDown(world, a, pivot, left, j0, stopJ0);
    PermutesSelf(s, left, right + 1);
    if i <= j {
      Swap(a, left, right, i, j);
      Swapped(FaceZ(world), s, a[..], left, right, i, j, i0, j0, pivot);
      stopI, stopJ := j, i;
      i := i + 1;
      j := j - 1;
    }
  }

  method PartitionFaces(world: nat -> real, a: array<Face>, left: nat, right: nat)
    returns (i: nat, j: int, ghost p: real)
    requires left < right < a.Length
    modifies a
    ensures left - 1 <= j < right && left < i <= right + 1
    ensures Parts(FaceZ(world), old(a[..]), a[..], left, right + 1, i, j, p)
  {
    hide Permutes, AtLeast, AtMost, FaceZ;
    i, j := left, right;
    var pivot := AverageZ(world, a[(left + right) / 2]);
    p := pivot;
    ghost var s := a[..];
    PermutesSelf(s, left, right + 1);
    ghost var stopI: nat, stopJ: nat := (left + right) / 2, (left + right) / 2;
    while i <= j
      invariant Placed(FaceZ(world), a[..], left, right, i, j, p, stopI, stopJ)
      invariant Permutes(s, a[..], left, right + 1)
      decreases j + 1 - i
    {
      hide Placed;
      ghost var t := a[..];
      i, j, stopI, stopJ := PassFaces(world, a, pivot, left, right, i, j, stopI, stopJ);
      PermutesTwice(s, t, a[..], left, right + 1);
    }
    Bounds(FaceZ(world), a[..], left, right + 1, i, j, p);
  }

  /** The sort of faces by their average Z. */
  method SortFaces(world: nat -> real, a: array<Face>, left: nat, right: int)
    requires left <= right + 1 <= a.Length
    modifies a
    ensures Sorts(FaceZ(world), old(a[..]), a[..], left, right + 1)
    decreases right + 1 - left
  {
    hide Sorts, Parts, FaceZ;
    ghost var s := a[..];
    if right > left {
      var i, j, p := PartitionFaces(world, a, left, right);
      ghost var t0 := a[..];
      if left < j {
        SortFaces(world, a, left, j);
      } else {
        Trivial(FaceZ(world), t0, left, j + 1);
      }
      ghost var t1 := a[..];
      if i < right {
        SortFaces(world, a, i, right);
      } else {
        Trivial(FaceZ(world), t1, i, right + 1);
      }
      SortedByParts(FaceZ(world), s, t0, t1, a[..], left, right + 1, i, j, p);
    } else {
      Trivial(FaceZ(world), s, left, right + 1);
    }
  }

  lemma PermutesWider<T>(s: seq<T>, t: seq<T>, lo: nat, hi: nat, from: nat, to: nat)
    requires from <= lo <= hi <= to <= |s| == |t| && Permutes(s, t, lo, hi)
    ensures Permutes(s, t, from, to)
  {
    assert s[from..to] == s[..lo][from..] + s[lo..hi] + s[hi..][..to - hi];
    assert t[from..to] == t[..lo][from..] + t[lo..hi] + t[hi..][..to - hi];
    assert s[..from] == s[..lo][..from] && t[..from] == t[..lo][..from];
    assert s[to..] == s[hi..][to - hi..] && t[to..] == t[hi..][to - hi..];
  }
}
