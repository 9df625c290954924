/** Stepping through the measurement cards: the position of a measurement in
    the fixed list, and the next and previous entries, wrapping round.

    An entry is identified by its id; the titles, values and notes it also
    carries are display data and play no part in navigation. */
module MeasurementCarousel {
  import opened Wrappers

  /** The measurement list, in display order. */
  const MeasurementIds: seq<string> := ["length", "width", "instep_height", "heel_width"]

  /** No id appears twice. */
  predicate Distinct(ids: seq<string>) {
    forall i, j :: 0 <= i < j < |ids| ==> ids[i] != ids[j]
  }

  /** `ids.indexOf(id)`: the first position of `id`, or -1. */
  function IndexOf(ids: seq<string>, id: string): (r: int)
    ensures -1 <= r < |ids|
    ensures r == -1 <==> id !in ids
    ensures r >= 0 ==> ids[r] == id && id !in ids[..r]
  {
    if |ids| == 0 then -1
    else if ids[0] == id then 0
    else
      var i := IndexOf(ids[1..], id);
      if i < 0 then -1
      else
        assert ids[..i + 1] == [ids[0]] + ids[1..][..i];
        i + 1
  }

  /** getMeasurementIndex. */
  function MeasurementIndex(id: string): (r: int)
    ensures r == -1 <==> id !in MeasurementIds
    ensures 0 <= r ==> r < |MeasurementIds| && MeasurementIds[r] == id
  {
    IndexOf(MeasurementIds, id)
  }

  /** The entry after `id`, the last one wrapping to the first; nothing for
      an unknown id. */
  function NextIn(ids: seq<string>, id: string): (r: Option<string>)
    ensures r.None? <==> id !in ids
    ensures r.Some? ==> r == Some(ids[(IndexOf(ids, id) + 1) % |ids|])
  {
    var current := IndexOf(ids, id);
    if current < 0 then None
    else
      var next := if current < |ids| - 1 then current + 1 else 0;
      StepMod(current, 1, |ids|);
      Some(ids[next])
  }

  /** getPrevMeasurement as written: the last entry from the first, and the
      first entry from every other position. */
  function PrevAsWrittenIn(ids: seq<string>, id: string): (r: Option<string>)
    ensures r.None? <==> id !in ids
    ensures r.Some? && IndexOf(ids, id) > 0 ==> r == Some(ids[0])
    ensures r.Some? && IndexOf(ids, id) == 0 ==> r == Some(ids[|ids| - 1])
  {
    var current := IndexOf(ids, id);
    if current < 0 then None
    else
      var prev := if current == 0 then |ids| - 1 else 0;
      Some(ids[prev])
  }

  /** getPrevMeasurement as evidently intended: the entry before `id`, the
      first one wrapping to the last. */
  function PrevIn(ids: seq<string>, id: string): (r: Option<string>)
    ensures r.None? <==> id !in ids
    ensures r.Some? ==> r == Some(ids[(IndexOf(ids, id) - 1) % |ids|])
  {
    var current := IndexOf(ids, id);
    if current < 0 then None
    else
      var prev := if current == 0 then |ids| - 1 else current - 1;
      StepMod(current, -1, |ids|);
      Some(ids[prev])
  }

  /** getNextMeasurement over the measurement list. */
  function Next(id: string): Option<string> {
    NextIn(MeasurementIds, id)
  }

  /** getPrevMeasurement over the measurement list, corrected. */
  function PrevIntended(id: string): Option<string> {
    PrevIn(MeasurementIds, id)
  }

  // ---------------------------------------------------------------------
  // Properties

  /** One step forward or back, wrapping round, is a step modulo `n`. */
  lemma StepMod(i: int, d: int, n: int)
    requires 0 <= i < n && (d == 1 || d == -1)
    ensures (i + d) % n == if i + d == n then 0 else if i + d == -1 then n - 1 else i + d
  {
  }

  lemma MeasurementIdsDistinct()
    ensures Distinct(MeasurementIds)
  {
  }

  /** In a list without repeats the position of the entry at `i` is `i`. */
  lemma IndexOfDistinct(ids: seq<string>, i: nat)
    requires Distinct(ids) && i < |ids|
    ensures IndexOf(ids, ids[i]) == i
  {
  }

  /** Stepping back undoes stepping forward. */
  lemma PrevNext(ids: seq<string>, id: string)
    requires Distinct(ids) && id in ids
    ensures PrevIn(ids, NextIn(ids, id).value) == Some(id)
  {
    var i := IndexOf(ids, id);
    StepMod(i, 1, |ids|);
    var j := (i + 1) % |ids|;
    IndexOfDistinct(ids, j);
    StepMod(j, -1, |ids|);
  }

  /** Stepping forward undoes stepping back. */
  lemma NextPrev(ids: seq<string>, id: string)
    requires Distinct(ids) && id in ids
    ensures NextIn(ids, PrevIn(ids, id).value) == Some(id)
  {
    var i := IndexOf(ids, id);
    StepMod(i, -1, |ids|);
    var j := (i - 1) % |ids|;
    IndexOfDistinct(ids, j);
    StepMod(j, 1, |ids|);
  }

  /** The list moves forward length, width, instep height, heel width, and
      back to length. */
  lemma NextCycle()
    ensures Next("length") == Some("width")
    ensures Next("width") == Some("instep_height")
    ensures Next("instep_height") == Some("heel_width")
    ensures Next("heel_width") == Some("length")
  {
    MeasurementIdsDistinct();
    IndexOfDistinct(MeasurementIds, 0);
    IndexOfDistinct(MeasurementIds, 1);
    IndexOfDistinct(MeasurementIds, 2);
    IndexOfDistinct(MeasurementIds, 3);
  }

  /** As written, stepping back from the instep height lands on the length
      rather than the width, and stepping forward from there does not return
      to where it started. */
  lemma PrevAsWrittenSkips()
    ensures PrevAsWrittenIn(MeasurementIds, "instep_height") == Some("length")
    ensures PrevIntended("instep_height") == Some("width")
    ensures Next(PrevAsWrittenIn(MeasurementIds, "instep_height").value) != Some("instep_height")
  {
    MeasurementIdsDistinct();
    IndexOfDistinct(MeasurementIds, 0);
    IndexOfDistinct(MeasurementIds, 2);
  }
}
