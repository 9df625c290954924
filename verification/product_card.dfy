/** The expanded product card: the size recommendation it ranks, the fit
    preference row, the inventory window and the fit it shows on the feet. */
module ProductCard {
  import opened Wrappers
  import opened JsValues
  import opened Seqs
  import opened Shoes

  // ---------------------------------------------------------------------
  // Ranking the recommendation

  /** Some colour and width of the product stocks a length with this label. */
  predicate Stocked(product: Product, lengthLabel: string) {
    exists c, w, l ::
      && 0 <= c < |product.colorSizeVariants|
      && 0 <= w < |product.colorSizeVariants[c].sizeVariants|
      && 0 <= l < |product.colorSizeVariants[c].sizeVariants[w].lengthSizes|
      && product.colorSizeVariants[c].sizeVariants[w].lengthSizes[l].lengthLabel == lengthLabel
  }

  /** The recommended sizes whose length the product stocks in some colour
      and width, in order. */
  function StockedSizes(product: Product, sizes: seq<SizeRecommendation>): (r: seq<SizeRecommendation>)
    ensures IsSubsequence(r, sizes)
    ensures forall s :: s in r <==> s in sizes && Stocked(product, s.lengthLabel)
  {
    var keep := (s: SizeRecommendation) => Stocked(product, s.lengthLabel);
    FilterIsSubsequence(keep, sizes);
    forall s ensures s in Filter(keep, sizes) <==> s in sizes && keep(s) {
      FilterMembers(keep, sizes, s);
    }
    Filter(keep, sizes)
  }

  predicate SortedByLength(s: seq<SizeRecommendation>) {
    forall i, j :: 0 <= i < j < |s| ==> s[i].lengthSize <= s[j].lengthSize
  }

  /** The sizes with exactly the given length, as a filter. */
  function SameLength(k: real): SizeRecommendation -> bool {
    (s: SizeRecommendation) => s.lengthSize == k
  }

  /** Inserts `x` after every element no longer than it. */
  function Insert(sorted: seq<SizeRecommendation>, x: SizeRecommendation): (r: seq<SizeRecommendation>)
    requires SortedByLength(sorted)
    ensures SortedByLength(r)
    ensures multiset(r) == multiset(sorted) + multiset{x}
    ensures |r| == |sorted| + 1
    ensures forall i :: 0 <= i < |r| ==> r[i] == x || r[i] in sorted
    decreases |sorted|
  {
    if |sorted| == 0 then [x]
    else
      var n := |sorted| - 1;
      var last := sorted[n];
      if last.lengthSize <= x.lengthSize then sorted + [x]
      else
        assert sorted == sorted[..n] + [last];
        Insert(sorted[..n], x) + [last]
  }

  /** `.sort((a, b) => a.length_size - b.length_size)`, a stable sort. */
  function SortByLength(s: seq<SizeRecommendation>): (r: seq<SizeRecommendation>)
    ensures SortedByLength(r)
    ensures multiset(r) == multiset(s)
    decreases |s|
  {
    if |s| == 0 then []
    else
      var n := |s| - 1;
      assert s == s[..n] + [s[n]];
      Insert(SortByLength(s[..n]), s[n])
  }

  /** Two sizes of different lengths are never both kept by one length
      filter, so their filtered parts commute. */
  lemma FilterSwap(x: SizeRecommendation, y: SizeRecommendation, k: real)
    requires x.lengthSize != y.lengthSize
    ensures Filter(SameLength(k), [x]) + Filter(SameLength(k), [y])
         == Filter(SameLength(k), [y]) + Filter(SameLength(k), [x])
  {
    assert Filter(SameLength(k), [x]) == [] || Filter(SameLength(k), [y]) == [];
  }

  /** The step of the stability proof where `x` goes before `last`. */
  lemma InsertBeforeLast(init: seq<SizeRecommendation>, inserted: seq<SizeRecommendation>,
                         last: SizeRecommendation, x: SizeRecommendation, k: real)
    requires last.lengthSize != x.lengthSize
    requires Filter(SameLength(k), inserted) == Filter(SameLength(k), init + [x])
    ensures Filter(SameLength(k), inserted + [last]) == Filter(SameLength(k), init + [last] + [x])
  {
    var keep := SameLength(k);
    FilterConcat(keep, inserted, [last]);
    FilterConcat(keep, init, [x]);
    FilterConcat(keep, init, [last]);
    FilterConcat(keep, init + [last], [x]);
    FilterSwap(x, last, k);
    var fi, fx, fl := Filter(keep, init), Filter(keep, [x]), Filter(keep, [last]);
    assert fi + fx + fl == fi + (fx + fl);
    assert fi + fl + fx == fi + (fl + fx);
  }

  /** Inserting keeps the order among sizes of each length. */
  lemma {:induction false} InsertStable(sorted: seq<SizeRecommendation>, x: SizeRecommendation, k: real)
    requires SortedByLength(sorted)
    ensures Filter(SameLength(k), Insert(sorted, x)) == Filter(SameLength(k), sorted + [x])
    decreases |sorted|
  {
    if |sorted| > 0 {
      var n := |sorted| - 1;
      var last, init := sorted[n], sorted[..n];
      if last.lengthSize > x.lengthSize {
        assert sorted == init + [last];
        InsertStable(init, x, k);
        InsertBeforeLast(init, Insert(init, x), last, x, k);
      }
    }
  }

  /** The sort is stable: the sizes of any one length come out in the order
      they went in. */
  lemma {:induction false} SortStable(s: seq<SizeRecommendation>, k: real)
    ensures Filter(SameLength(k), SortByLength(s)) == Filter(SameLength(k), s)
    decreases |s|
  {
    if |s| > 0 {
      var n := |s| - 1;
      assert s == s[..n] + [s[n]];
      SortStable(s[..n], k);
      InsertStable(SortByLength(s[..n]), s[n], k);
      FilterConcat(SameLength(k), SortByLength(s[..n]), [s[n]]);
      FilterConcat(SameLength(k), s[..n], [s[n]]);
    }
  }

  /** The first position of the highest length likelihood; 0 for no sizes. */
  method MostLikelyIndex(sizes: seq<SizeRecommendation>) returns (index: nat)
    ensures |sizes| == 0 ==> index == 0
    ensures |sizes| > 0 ==> index < |sizes|
    ensures forall j :: 0 <= j < |sizes| ==> sizes[j].lengthLikelihood <= sizes[index].lengthLikelihood
    ensures forall j :: 0 <= j < index ==> sizes[j].lengthLikelihood < sizes[index].lengthLikelihood
  {
    index := 0;
    if |sizes| == 0 {
      return;
    }
    var best := sizes[0].lengthLikelihood;
    var i := 0;
    while i < |sizes|
      invariant 0 <= i <= |sizes| && index < |sizes|
      invariant index <= i || index == 0
      invariant best == sizes[index].lengthLikelihood
      invariant forall j :: 0 <= j < i ==> sizes[j].lengthLikelihood <= best
      invariant forall j :: 0 <= j < index ==> sizes[j].lengthLikelihood < best
    {
      if sizes[i].lengthLikelihood > best {
        best := sizes[i].lengthLikelihood;
        index := i;
      }
      i := i + 1;
    }
  }

  /** The sizes of the given width, shortest first. */
  function WidthSizes(sizes: seq<SizeRecommendation>, bestWidth: string): (r: seq<SizeRecommendation>)
    ensures SortedByLength(r)
    ensures forall s :: s in r <==> s in sizes && s.widthLabel == bestWidth
  {
    var keep := (s: SizeRecommendation) => s.widthLabel == bestWidth;
    var r := SortByLength(Filter(keep, sizes));
    forall s ensures s in r <==> s in sizes && keep(s) {
      FilterMembers(keep, sizes, s);
      assert s in r <==> s in multiset(r);
    }
    r
  }

  /** getRecommendationSizes: the sizes of the best width, shortest first,
      and the first position of the most likely one. */
  method RecommendationSizes(sizes: seq<SizeRecommendation>, bestWidth: string)
    returns (ranked: seq<SizeRecommendation>, mostRecommended: nat)
    ensures ranked == WidthSizes(sizes, bestWidth)
    ensures |ranked| == 0 ==> mostRecommended == 0
    ensures |ranked| > 0 ==> mostRecommended < |ranked|
    ensures forall j :: 0 <= j < |ranked| ==> ranked[j].lengthLikelihood <= ranked[mostRecommended].lengthLikelihood
    ensures forall j :: 0 <= j < mostRecommended ==> ranked[j].lengthLikelihood < ranked[mostRecommended].lengthLikelihood
  {
    ranked := WidthSizes(sizes, bestWidth);
    mostRecommended := MostLikelyIndex(ranked);
  }

  // ---------------------------------------------------------------------
  // Fit preference row

  /** The row shown under "fit preference": the next smaller size, the
      recommended one and the next larger one, each missing at the ends;
      nothing without a recommendation. */
  function FitPreferenceRow(recommendation: Option<(seq<SizeRecommendation>, nat)>): (r: seq<Option<SizeRecommendation>>)
    ensures recommendation.None? ==> r == []
    ensures recommendation.Some? ==>
      var (sizes, i) := recommendation.value;
      && |r| == 3
      && (r[0].Some? <==> 0 < i <= |sizes|)
      && (r[1].Some? <==> i < |sizes|)
      && (r[2].Some? <==> i + 1 < |sizes|)
      && (forall k :: 0 <= k < 3 && r[k].Some? ==> 0 <= i + k - 1 < |sizes| && r[k].value == sizes[i + k - 1])
  {
    match recommendation
    case None => []
    case Some((sizes, i)) =>
      var prev := if i > 0 && i - 1 < |sizes| then Some(sizes[i - 1]) else None;
      var here := if i < |sizes| then Some(sizes[i]) else None;
      var next := if i < |sizes| - 1 then Some(sizes[i + 1]) else None;
      [prev, here, next]
  }

  /** For a ranked recommendation the row runs from shorter to longer, and
      its middle entry is a size no other size beats on likelihood. */
  lemma FitPreferenceOrdered(sizes: seq<SizeRecommendation>, bestWidth: string, i: nat)
    requires 0 < |WidthSizes(sizes, bestWidth)|
    requires i < |WidthSizes(sizes, bestWidth)|
    requires forall j :: 0 <= j < |WidthSizes(sizes, bestWidth)| ==>
      WidthSizes(sizes, bestWidth)[j].lengthLikelihood <= WidthSizes(sizes, bestWidth)[i].lengthLikelihood
    ensures var row := FitPreferenceRow(Some((WidthSizes(sizes, bestWidth), i)));
      && row[1].Some?
      && (forall s :: s in sizes && s.widthLabel == bestWidth ==> s.lengthLikelihood <= row[1].value.lengthLikelihood)
      && (row[0].Some? ==> row[0].value.lengthSize <= row[1].value.lengthSize)
      && (row[2].Some? ==> row[1].value.lengthSize <= row[2].value.lengthSize)
  {
    var ranked := WidthSizes(sizes, bestWidth);
    forall s | s in sizes && s.widthLabel == bestWidth ensures s.lengthLikelihood <= ranked[i].lengthLikelihood {
      var j :| 0 <= j < |ranked| && ranked[j] == s;
    }
  }

  // ---------------------------------------------------------------------
  // Inventory window

  /** Where the recommended length falls among the stocked lengths: the
      last variant no longer than it, at `i` when equal and at `i + 0.5`
      when shorter; -1 when there is none or no recommendation. */
  function RecommendedPosition(variants: seq<LengthVariant>, recommended: Option<real>): (pos: real)
    decreases |variants|
  {
    if |variants| == 0 then -1.0
    else
      var i := |variants| - 1;
      if recommended.Some? && variants[i].lengthSize < recommended.value then i as real + 0.5
      else if recommended.Some? && variants[i].lengthSize == recommended.value then i as real
      else RecommendedPosition(variants[..i], recommended)
  }

  /** The position is -1, or a variant's index, or half past one. */
  lemma {:induction false} RecommendedPositionShape(variants: seq<LengthVariant>, recommended: Option<real>)
    ensures var pos := RecommendedPosition(variants, recommended);
      pos == -1.0 || (0 <= pos.Floor < |variants| && (pos == pos.Floor as real || pos == pos.Floor as real + 0.5))
    decreases |variants|
  {
    if |variants| > 0 {
      RecommendedPositionShape(variants[..|variants| - 1], recommended);
    }
  }

  /** The elements of `s` from position `from` on whose index `keep`
      accepts: `s.filter((v, i) => keep(i))`. */
  function KeepIndices<T>(s: seq<T>, keep: int -> bool, from: nat): seq<T>
    requires from <= |s|
    decreases |s| - from
  {
    if from == |s| then []
    else if keep(from) then [s[from]] + KeepIndices(s, keep, from + 1)
    else KeepIndices(s, keep, from + 1)
  }

  /** Keeping the indices of a range keeps that slice. */
  lemma {:induction false} KeepRange<T>(s: seq<T>, keep: int -> bool, from: nat, lo: nat, hi: nat)
    requires from <= lo <= hi <= |s|
    requires forall i :: from <= i < |s| ==> (keep(i) <==> lo <= i < hi)
    ensures KeepIndices(s, keep, from) == s[lo..hi]
    decreases |s| - from
  {
    if from < |s| {
      if from < lo {
        KeepRange(s, keep, from + 1, lo, hi);
      } else if from < hi {
        KeepRange(s, keep, from + 1, from + 1, hi);
        assert s[from..hi] == [s[from]] + s[from + 1..hi];
      } else {
        KeepRange(s, keep, from + 1, from + 1, from + 1);
      }
    }
  }

  /** An index within two of the recommended position. */
  predicate Near(i: int, pos: real) {
    -2.0 <= i as real - pos <= 2.0
  }

  /** filterLengthVariants: at most five stocked lengths around the
      recommended one, as one contiguous run; the last variant no longer
      than the recommendation is always in it.  A position below 2 shows
      the first five, one past the third-last shows the last five, and any
      other shows the indices within two of it. */
  method FilterLengthVariants(variants: seq<LengthVariant>, recommended: Option<real>)
    returns (shown: seq<LengthVariant>)
    ensures exists lo, hi ::
      && 0 <= lo <= hi <= |variants| && hi - lo <= 5 && shown == variants[lo..hi]
      && (RecommendedPosition(variants, recommended) >= 0.0 ==>
            lo <= RecommendedPosition(variants, recommended).Floor < hi)
    ensures |variants| <= 5 ==> shown == variants
    ensures RecommendedPosition(variants, recommended) < 2.0 ==>
      shown == variants[..if |variants| < 5 then |variants| else 5]
    ensures 2.0 <= RecommendedPosition(variants, recommended) && RecommendedPosition(variants, recommended) > |variants| as real - 3.0 ==>
      shown == variants[if |variants| < 5 then 0 else |variants| - 5..]
    ensures 2.0 <= RecommendedPosition(variants, recommended) <= |variants| as real - 3.0 ==>
      exists lo, hi :: 0 <= lo <= hi <= |variants| && shown == variants[lo..hi]
        && forall i :: 0 <= i < |variants| ==> (lo <= i < hi <==> Near(i, RecommendedPosition(variants, recommended)))
  {
    var pos := -1.0;
    var i := 0;
    while i < |variants|
      invariant 0 <= i <= |variants|
      invariant pos == RecommendedPosition(variants[..i], recommended)
    {
      assert variants[..i + 1][..i] == variants[..i];
      if recommended.Some? && variants[i].lengthSize < recommended.value {
        pos := i as real + 0.5;
      } else if recommended.Some? && variants[i].lengthSize == recommended.value {
        pos := i as real;
      }
      i := i + 1;
    }
    assert variants[..|variants|] == variants;
    RecommendedPositionShape(variants, recommended);
    var n := |variants|;
    if pos < 2.0 {
      var hi := if n < 5 then n else 5;
      KeepRange(variants, j => j < 5, 0, 0, hi);
      shown := KeepIndices(variants, j => j < 5, 0);
    } else if pos > n as real - 3.0 {
      var lo := if n < 5 then 0 else n - 5;
      KeepRange(variants, j => j >= n - 5, 0, lo, n);
      shown := KeepIndices(variants, j => j >= n - 5, 0);
    } else {
      var lo, hi := NearWindow(pos, n);
      if n <= 5 {
        assert Near(0, pos) && Near(n - 1, pos);
      }
      KeepRange(variants, j => Near(j, pos), 0, lo, hi);
      shown := KeepIndices(variants, j => Near(j, pos), 0);
    }
  }

  /** The indices within two of a position between 2 and the third-last
      form a run of at most five holding the position's own index. */
  lemma NearWindow(pos: real, n: nat) returns (lo: nat, hi: nat)
    requires 2.0 <= pos <= n as real - 3.0
    requires pos == pos.Floor as real || pos == pos.Floor as real + 0.5
    ensures lo <= pos.Floor < hi <= n && hi - lo <= 5
    ensures forall i :: 0 <= i < n ==> (lo <= i < hi <==> Near(i, pos))
  {
    var k := pos.Floor;
    lo := if pos == k as real then k - 2 else k - 1;
    hi := k + 3;
  }

  // ---------------------------------------------------------------------
  // The fit shown on the feet

  /** A recommended size carries both labels of the selection. */
  predicate Selects(size: SizeRecommendation, widthLabel: string, lengthLabel: string) {
    size.widthLabel == widthLabel && size.lengthLabel == lengthLabel
  }

  /** The first recommended size with both labels of the selection. */
  function FindSize(sizes: seq<SizeRecommendation>, widthLabel: string, lengthLabel: string): (r: Option<nat>)
    ensures r.Some? ==> r.value < |sizes| && Selects(sizes[r.value], widthLabel, lengthLabel)
    ensures forall j :: 0 <= j < |sizes| && (r.None? || j < r.value) ==> !Selects(sizes[j], widthLabel, lengthLabel)
  {
    if |sizes| == 0 then None
    else if Selects(sizes[0], widthLabel, lengthLabel) then Some(0)
    else
      match FindSize(sizes[1..], widthLabel, lengthLabel)
      case None => None
      case Some(j) => Some(j + 1)
  }

  /** The fit dispatched to the feet view: a selected size that is also a
      recommended size shows its own fit zones (converted from the backend's
      form by `fromBackend`); anything else shows the product's fit. */
  function DispatchedFit(selected: Option<(string, string)>, recommendation: Option<seq<SizeRecommendation>>,
                         product: Product, fromBackend: Value -> Value): (r: Value)
    ensures selected.None? || recommendation.None? ==> r == product.fit
    ensures selected.Some? && recommendation.Some? ==>
      var (w, l) := selected.value;
      var sizes := recommendation.value;
      && ((forall j :: 0 <= j < |sizes| ==> !Selects(sizes[j], w, l)) ==> r == product.fit)
      && (forall j :: 0 <= j < |sizes| && Selects(sizes[j], w, l) && (forall m :: 0 <= m < j ==> !Selects(sizes[m], w, l))
            ==> r == fromBackend(sizes[j].fitZones))
  {
    if selected.None? || recommendation.None? then product.fit
    else
      var sizes, w, l := recommendation.value, selected.value.0, selected.value.1;
      var found := FindSize(sizes, w, l);
      FindSizeIsFirst(sizes, w, l);
      if found.Some? then fromBackend(sizes[found.value].fitZones) else product.fit
  }

  /** The search finds the first size with both labels, whichever it is. */
  lemma FindSizeIsFirst(sizes: seq<SizeRecommendation>, widthLabel: string, lengthLabel: string)
    ensures forall j :: 0 <= j < |sizes| && Selects(sizes[j], widthLabel, lengthLabel)
                        && (forall m :: 0 <= m < j ==> !Selects(sizes[m], widthLabel, lengthLabel))
                        ==> FindSize(sizes, widthLabel, lengthLabel) == Some(j)
  {
  }
}
