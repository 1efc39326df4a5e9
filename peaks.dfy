/**
 * What happens to the detector's output: `df.iloc[peaks]`, then
 * `sort_values("Wavenumber", ascending=False)`, then `head(max_peaks)`.
 *
 * The detector itself (`find_peaks` with its distance and prominence filters)
 * is not modelled; its output is taken as given: row positions, strictly
 * increasing and in range.
 */
module Peaks {
  import opened Spectrum

  /** What the detector returns for a series of `n` values. */
  predicate IsDetection(positions: seq<nat>, n: nat)
  {
    && (forall i :: 0 <= i < |positions| ==> positions[i] < n)
    && (forall i, j :: 0 <= i < j < |positions| ==> positions[i] < positions[j])
  }

  /** `df.iloc[positions]`: the rows at the detected positions, in detection order. */
  function RowsAt(s: seq<Point>, positions: seq<nat>): seq<Point>
    requires IsDetection(positions, |s|)
  {
    seq(|positions|, i requires 0 <= i < |positions| && IsDetection(positions, |s|) => s[positions[i]])
  }

  predicate SortedByWavenumberDesc(ps: seq<Point>)
  {
    forall i, j :: 0 <= i < j < |ps| ==> ps[i].wn >= ps[j].wn
  }

  /** Places `p` into a descending run, before the first row with a smaller wavenumber. */
  function Insert(p: Point, ps: seq<Point>): (r: seq<Point>)
    ensures |r| == |ps| + 1
    ensures multiset(r) == multiset(ps) + multiset{p}
  {
    if ps == [] || p.wn >= ps[0].wn then
      [p] + ps
    else
      assert ps == [ps[0]] + ps[1..];
      [ps[0]] + Insert(p, ps[1..])
  }

  /** Inserting a row no higher than `b` into rows no higher than `b` keeps every row no higher than `b`. */
  lemma {:induction false} InsertBelow(p: Point, ps: seq<Point>, b: real)
    requires p.wn <= b
    requires forall i :: 0 <= i < |ps| ==> ps[i].wn <= b
    ensures forall i :: 0 <= i < |Insert(p, ps)| ==> Insert(p, ps)[i].wn <= b
  {
    if ps != [] && p.wn < ps[0].wn {
      var rest := Insert(p, ps[1..]);
      InsertBelow(p, ps[1..], b);
      forall i | 0 <= i < |Insert(p, ps)|
        ensures Insert(p, ps)[i].wn <= b
      {
        if i > 0 {
          assert Insert(p, ps)[i] == rest[i - 1];
        }
      }
    }
  }

  lemma {:induction false} InsertSorted(p: Point, ps: seq<Point>)
    requires SortedByWavenumberDesc(ps)
    ensures SortedByWavenumberDesc(Insert(p, ps))
  {
    if ps != [] && p.wn < ps[0].wn {
      var rest := Insert(p, ps[1..]);
      InsertSorted(p, ps[1..]);
      forall i | 0 <= i < |ps[1..]|
        ensures ps[1..][i].wn <= ps[0].wn
      {
        assert ps[1..][i] == ps[i + 1];
      }
      InsertBelow(p, ps[1..], ps[0].wn);
      var r := [ps[0]] + rest;
      forall i, j | 0 <= i < j < |r|
        ensures r[i].wn >= r[j].wn
      {
        assert r[j] == rest[j - 1];
        if i > 0 {
          assert r[i] == rest[i - 1];
        }
      }
    }
  }

  /**
   * `sort_values("Wavenumber", ascending=False)`. The library's sort is not
   * stable; this is one admissible order among equal wavenumbers, and every
   * property stated about the selection holds whatever that order is.
   */
  function SortDescending(ps: seq<Point>): (r: seq<Point>)
    ensures |r| == |ps|
    ensures multiset(r) == multiset(ps)
    ensures SortedByWavenumberDesc(r)
  {
    if ps == [] then []
    else
      assert ps == [ps[0]] + ps[1..];
      InsertSorted(ps[0], SortDescending(ps[1..]));
      Insert(ps[0], SortDescending(ps[1..]))
  }

  /** `head(n)`: the first `n` rows, or all of them when there are fewer. */
  function Head(ps: seq<Point>, n: nat): seq<Point>
  {
    if n < |ps| then ps[..n] else ps
  }

  function Min(a: nat, b: nat): nat
  {
    if a < b then a else b
  }

  /** The selected peaks, `df.iloc[peaks].sort_values(...).head(max_peaks)`. */
  function SelectPeaks(s: seq<Point>, detected: seq<nat>, maxPeaks: nat): seq<Point>
    requires IsDetection(detected, |s|)
  {
    Head(SortDescending(RowsAt(s, detected)), maxPeaks)
  }

  /**
   * What any outcome of sort-then-truncate satisfies: `sel` is ordered by
   * wavenumber, descending; it has min(#candidates, maxPeaks) rows; it takes
   * each candidate at most once; and no candidate left out has a larger
   * wavenumber than one kept.
   */
  ghost predicate IsSelection(candidates: seq<Point>, maxPeaks: nat, sel: seq<Point>)
  {
    && SortedByWavenumberDesc(sel)
    && |sel| == Min(|candidates|, maxPeaks)
    && multiset(sel) <= multiset(candidates)
    && (forall p: Point, q: Point :: p in multiset(candidates) - multiset(sel) && q in sel ==> p.wn <= q.wn)
  }

  /** Truncating any descending ordering of the candidates gives a valid selection. */
  lemma HeadOfSortedIsSelection(candidates: seq<Point>, sorted: seq<Point>, maxPeaks: nat)
    requires multiset(sorted) == multiset(candidates) && |sorted| == |candidates|
    requires SortedByWavenumberDesc(sorted)
    ensures IsSelection(candidates, maxPeaks, Head(sorted, maxPeaks))
  {
    var m := Min(|candidates|, maxPeaks);
    var sel := Head(sorted, maxPeaks);
    assert sel == sorted[..m];
    assert SortedByWavenumberDesc(sel);
    LeftOutAreLower(sorted, m);
    assert multiset(candidates) - multiset(sel) == multiset(sorted[m..]);
  }

  /** Cutting a descending run at `m`: the tail is what the cut leaves out, and it is no higher than the head. */
  lemma LeftOutAreLower(sorted: seq<Point>, m: nat)
    requires SortedByWavenumberDesc(sorted) && m <= |sorted|
    ensures multiset(sorted) == multiset(sorted[..m]) + multiset(sorted[m..])
    ensures multiset(sorted) - multiset(sorted[..m]) == multiset(sorted[m..])
    ensures forall p: Point, q: Point :: p in multiset(sorted[m..]) && q in sorted[..m] ==> p.wn <= q.wn
  {
    assert sorted == sorted[..m] + sorted[m..];
    forall p: Point, q: Point | p in multiset(sorted[m..]) && q in sorted[..m]
      ensures p.wn <= q.wn
    {
      var j :| m <= j < |sorted| && sorted[j] == p;
      var i :| 0 <= i < m && sorted[i] == q;
    }
  }

  /** A row taken from the detected rows is the spectrum's row at some detected position. */
  lemma FromDetectedRow(s: seq<Point>, detected: seq<nat>, x: Point)
    requires IsDetection(detected, |s|)
    requires x in multiset(RowsAt(s, detected))
    ensures exists i :: 0 <= i < |detected| && x == s[detected[i]]
  {
    var candidates := RowsAt(s, detected);
    var i :| 0 <= i < |candidates| && candidates[i] == x;
  }

  /**
   * The selection is a valid top-`maxPeaks` choice of the detected rows, and
   * every selected peak is the spectrum's row at some detected position.
   */
  lemma SelectPeaksSpec(s: seq<Point>, detected: seq<nat>, maxPeaks: nat)
    requires IsDetection(detected, |s|)
    ensures IsSelection(RowsAt(s, detected), maxPeaks, SelectPeaks(s, detected, maxPeaks))
    ensures forall k :: 0 <= k < |SelectPeaks(s, detected, maxPeaks)| ==>
              exists i :: 0 <= i < |detected| && SelectPeaks(s, detected, maxPeaks)[k] == s[detected[i]]
  {
    var candidates := RowsAt(s, detected);
    var sel := SelectPeaks(s, detected, maxPeaks);
    HeadOfSortedIsSelection(candidates, SortDescending(candidates), maxPeaks);
    forall k | 0 <= k < |sel|
      ensures exists i :: 0 <= i < |detected| && sel[k] == s[detected[i]]
    {
      assert sel[k] in multiset(sel);
      FromDetectedRow(s, detected, sel[k]);
    }
  }

  /** How many rows of `a` have a wavenumber of at least `v`. */
  function CountAtLeast(a: seq<Point>, v: real): nat
  {
    if a == [] then 0 else (if a[0].wn >= v then 1 else 0) + CountAtLeast(a[1..], v)
  }

  lemma {:induction false} CountConcat(a: seq<Point>, b: seq<Point>, v: real)
    ensures CountAtLeast(a + b, v) == CountAtLeast(a, v) + CountAtLeast(b, v)
  {
    if a == [] {
      assert a + b == b;
    } else {
      assert (a + b)[1..] == a[1..] + b;
      CountConcat(a[1..], b, v);
    }
  }

  lemma CountRemoveAt(b: seq<Point>, j: nat, v: real)
    requires j < |b|
    ensures CountAtLeast(b, v) == CountAtLeast(b[..j] + b[j + 1..], v) + (if b[j].wn >= v then 1 else 0)
    ensures multiset(b) == multiset(b[..j] + b[j + 1..]) + multiset{b[j]}
  {
    assert b == b[..j] + ([b[j]] + b[j + 1..]);
    CountConcat(b[..j], [b[j]] + b[j + 1..], v);
    CountConcat(b[..j], b[j + 1..], v);
    assert ([b[j]] + b[j + 1..])[1..] == b[j + 1..];
  }

  lemma {:induction false} CountPositive(b: seq<Point>, v: real)
    ensures CountAtLeast(b, v) > 0 ==> exists x :: x in b && x.wn >= v
  {
    if b != [] && b[0].wn < v {
      CountPositive(b[1..], v);
      if CountAtLeast(b, v) > 0 {
        var x :| x in b[1..] && x.wn >= v;
        assert x in b;
      }
    }
  }

  /**
   * Counting is monotone in the multiset of rows, and when `b` has more rows
   * at or above `v` than its sub-multiset `a`, one of them is outside `a`.
   */
  lemma {:induction false} CountSub(a: seq<Point>, b: seq<Point>, v: real)
    requires multiset(a) <= multiset(b)
    ensures CountAtLeast(a, v) <= CountAtLeast(b, v)
    ensures CountAtLeast(a, v) < CountAtLeast(b, v) ==>
              exists x :: x in multiset(b) - multiset(a) && x.wn >= v
    decreases |a|
  {
    if a == [] {
      CountPositive(b, v);
      assert multiset(b) - multiset(a) == multiset(b);
    } else {
      var x := a[0];
      var a' := a[1..];
      assert a == [x] + a';
      assert multiset(a) == multiset(a') + multiset{x};
      assert x in multiset(b);
      var j :| 0 <= j < |b| && b[j] == x;
      var b' := b[..j] + b[j + 1..];
      CountRemoveAt(b, j, v);
      assert multiset(b) - multiset(a) == multiset(b') - multiset(a');
      CountSub(a', b', v);
    }
  }

  /** In a descending run, rows from `k` on with wavenumbers below `v` leave at most `k` rows at or above `v`. */
  lemma {:induction false} CountInSorted(a: seq<Point>, k: nat, v: real)
    requires SortedByWavenumberDesc(a) && k < |a|
    ensures a[k].wn < v ==> CountAtLeast(a, v) <= k
    ensures a[k].wn >= v ==> CountAtLeast(a, v) >= k + 1
  {
    assert a == a[..k + 1] + a[k + 1..];
    CountConcat(a[..k + 1], a[k + 1..], v);
    PrefixCount(a[..k + 1], v);
    SuffixCount(a[k + 1..], v);
    if k > 0 {
      assert a[..k + 1] == a[..k] + [a[k]];
      CountConcat(a[..k], [a[k]], v);
      LengthBound(a[..k], v);
    }
  }

  lemma {:induction false} LengthBound(a: seq<Point>, v: real)
    ensures CountAtLeast(a, v) <= |a|
  {
    if a != [] {
      LengthBound(a[1..], v);
    }
  }

  /** A descending run whose last row reaches `v` has every row at or above `v`. */
  lemma {:induction false} PrefixCount(a: seq<Point>, v: real)
    requires SortedByWavenumberDesc(a) && a != []
    ensures a[|a| - 1].wn >= v ==> CountAtLeast(a, v) == |a|
    ensures a[|a| - 1].wn < v ==> CountAtLeast(a, v) == CountAtLeast(a[..|a| - 1], v)
  {
    if |a| > 1 {
      PrefixCount(a[1..], v);
      assert a[1..][..|a| - 2] == a[1..|a| - 1];
      assert a[..|a| - 1] == [a[0]] + a[1..|a| - 1];
    }
  }

  /** A descending run that starts below `v` has no row at or above `v`. */
  lemma {:induction false} SuffixCount(a: seq<Point>, v: real)
    requires SortedByWavenumberDesc(a)
    ensures a != [] && a[0].wn < v ==> CountAtLeast(a, v) == 0
  {
    if a != [] && |a| > 1 {
      SuffixCount(a[1..], v);
    }
  }

  /** Position `k` of one valid selection has no higher wavenumber than position `k` of another. */
  lemma SelectionStepBound(candidates: seq<Point>, maxPeaks: nat, sel: seq<Point>, other: seq<Point>, k: nat)
    requires IsSelection(candidates, maxPeaks, sel) && IsSelection(candidates, maxPeaks, other)
    requires k < |sel|
    ensures sel[k].wn <= other[k].wn
  {
    var v := sel[k].wn;
    CountInSorted(sel, k, v);
    CountInSorted(other, k, v);
    CountSub(sel, candidates, v);
    CountSub(other, candidates, v);
    assert other[k] in other;
  }

  /**
   * The wavenumbers of a selection do not depend on how the sort orders equal
   * wavenumbers: any two valid selections agree position by position.
   */
  lemma SelectionWavenumbersDetermined(candidates: seq<Point>, maxPeaks: nat, sel: seq<Point>, other: seq<Point>)
    requires IsSelection(candidates, maxPeaks, sel) && IsSelection(candidates, maxPeaks, other)
    ensures |sel| == |other|
    ensures forall k :: 0 <= k < |sel| ==> sel[k].wn == other[k].wn
  {
    forall k | 0 <= k < |sel|
      ensures sel[k].wn == other[k].wn
    {
      SelectionStepBound(candidates, maxPeaks, sel, other, k);
      SelectionStepBound(candidates, maxPeaks, other, sel, k);
    }
  }
}
