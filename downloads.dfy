/**
 * `calculate_downloads_14d`: downloads over the trailing 14 days, as the current cumulative
 * count minus the count recorded in a stored snapshot at least 14 days old.  The stored
 * history and today's date are parameters here; the source reads them from the database and
 * the clock.
 */
module TrailingDownloads {
  import opened Wrappers
  import opened Dates
  import opened Text
  import opened Aggregator

  const WindowDays := 14

  /** `target_date = today - timedelta(days=14)`, as a day number. */
  function TargetDay(today: CalendarDate): int {
    Ordinal(today) - WindowDays
  }

  /** The day numbers of the snapshots' dates, in history order. */
  function Days(h: seq<Snapshot>): (ds: seq<int>)
    ensures |ds| == |h| && forall i :: 0 <= i < |h| ==> ds[i] == Ordinal(h[i].date)
  {
    seq(|h|, i requires 0 <= i < |h| => Ordinal(h[i].date))
  }

  /** On a chronological history the day numbers never decrease. */
  lemma ChronologicalDays(h: seq<Snapshot>)
    requires Chronological(h)
    ensures forall i, j :: 0 <= i <= j < |h| ==> Days(h)[i] <= Days(h)[j]
  {
    forall i, j | 0 <= i <= j < |h| ensures Days(h)[i] <= Days(h)[j] {
      OrdinalOrder(h[i].date, h[j].date);
    }
  }

  /** The position the source's scan stops at: the first day number on or before the target
      day (`entry_date <= target_date`). */
  function FirstOnOrBefore(ds: seq<int>, target: int): (r: Option<nat>)
    ensures r.None? <==> forall i :: 0 <= i < |ds| ==> ds[i] > target
    ensures r.Some? ==> r.value < |ds| && ds[r.value] <= target
    ensures r.Some? ==> forall i :: 0 <= i < r.value ==> ds[i] > target
  {
    if ds == [] then None
    else if ds[0] <= target then Some(0)
    else
      assert forall i :: 1 <= i < |ds| ==> ds[1..][i - 1] == ds[i];
      match FirstOnOrBefore(ds[1..], target)
      case None => None
      case Some(j) => Some(j + 1)
  }

  /** The first qualifying position is the one before which nothing qualifies. */
  lemma {:induction false} FirstOnOrBeforeIs(ds: seq<int>, target: int, i: nat)
    requires i < |ds| && ds[i] <= target
    requires forall k :: 0 <= k < i ==> ds[k] > target
    ensures FirstOnOrBefore(ds, target) == Some(i)
  {
    if i > 0 {
      assert ds[1..][i - 1] == ds[i];
      assert forall k :: 0 <= k < i - 1 ==> ds[1..][k] == ds[k + 1];
      FirstOnOrBeforeIs(ds[1..], target, i - 1);
    }
  }

  /** What `calculate_downloads_14d` returns for the given inputs. */
  function TrailingDelta(current: Option<int>, h: seq<Snapshot>, today: CalendarDate): (r: Option<int>)
    ensures r.Some? ==> r.value >= 0
  {
    if current.None? || h == [] then None
    else
      match FirstOnOrBefore(Days(h), TargetDay(today))
      case None => None
      case Some(i) =>
        match h[i].downloads
        case None => None
        case Some(before) => Some(Max(0, current.value - before))
  }

  /** The scan of the source: the first stored snapshot dated on or before the target day
      supplies the old count; a missing current count, an empty history, no such snapshot,
      or a snapshot without a count give `None`. */
  method Downloads14d(current: Option<int>, history: seq<Snapshot>, today: CalendarDate) returns (r: Option<int>)
    ensures r == TrailingDelta(current, history, today)
  {
    if current.None? {
      return None;
    }
    if history == [] {
      return None;
    }
    var target := TargetDay(today);
    ghost var ds := Days(history);
    ghost var found: Option<nat> := None;
    var ago: Option<int> := None;
    var i := 0;
    while i < |history|
      invariant 0 <= i <= |history|
      invariant forall k :: 0 <= k < i ==> ds[k] > target
      invariant ago.None? && found.None?
    {
      if Ordinal(history[i].date) <= target {
        ago := history[i].downloads;
        found := Some(i);
        FirstOnOrBeforeIs(ds, target, i);
        break;
      }
      i := i + 1;
    }
    assert found == FirstOnOrBefore(ds, target);
    assert found.Some? ==> ago == history[found.value].downloads;
    if ago.None? {
      return None;
    }
    return Some(Max(0, current.value - ago.value));
  }

  /** When there is a result, it is the growth of the cumulative count since the chosen
      snapshot, floored at zero; there is one exactly when the current count is known and the
      first snapshot at least 14 days old has a count. */
  lemma TrailingDeltaMeaning(current: Option<int>, h: seq<Snapshot>, today: CalendarDate)
    ensures TrailingDelta(current, h, today).Some?
        <==> current.Some? && FirstOnOrBefore(Days(h), TargetDay(today)).Some?
             && h[FirstOnOrBefore(Days(h), TargetDay(today)).value].downloads.Some?
    ensures TrailingDelta(current, h, today).Some? ==>
              var before := h[FirstOnOrBefore(Days(h), TargetDay(today)).value].downloads.value;
              && TrailingDelta(current, h, today).value >= current.value - before
              && (current.value >= before ==> TrailingDelta(current, h, today).value == current.value - before)
              && (current.value < before ==> TrailingDelta(current, h, today).value == 0)
  {
  }

  /** On a chronological history the scan always stops at the oldest snapshot: the result is
      `None` unless the oldest snapshot is at least 14 days old, and then the count is measured
      from it, however much older than 14 days it is. */
  lemma TrailingDeltaUsesOldest(current: Option<int>, h: seq<Snapshot>, today: CalendarDate)
    requires Chronological(h) && h != []
    ensures FirstOnOrBefore(Days(h), TargetDay(today)) ==
              if Ordinal(h[0].date) <= TargetDay(today) then Some(0) else None
  {
    ChronologicalDays(h);
  }

  /** The position of the latest day number on or before the target day. */
  function LastOnOrBefore(ds: seq<int>, target: int): (r: Option<nat>)
    ensures r.None? <==> forall i :: 0 <= i < |ds| ==> ds[i] > target
    ensures r.Some? ==> r.value < |ds| && ds[r.value] <= target
    ensures r.Some? ==> forall i :: r.value < i < |ds| ==> ds[i] > target
  {
    if ds == [] then None
    else if ds[|ds| - 1] <= target then Some(|ds| - 1)
    else
      var init := ds[..|ds| - 1];
      assert forall i :: 0 <= i < |init| ==> init[i] == ds[i];
      LastOnOrBefore(init, target)
  }

  /** The evidently intended rule: measure from the snapshot closest to 14 days ago, that is the
      latest one dated on or before the target day. */
  function TrailingDeltaNearest(current: Option<int>, h: seq<Snapshot>, today: CalendarDate): (r: Option<int>)
    ensures r.Some? ==> r.value >= 0
  {
    if current.None? || h == [] then None
    else
      match LastOnOrBefore(Days(h), TargetDay(today))
      case None => None
      case Some(i) =>
        match h[i].downloads
        case None => None
        case Some(before) => Some(Max(0, current.value - before))
  }

  /** On a chronological history the corrected rule picks a snapshot no older than any other
      snapshot on or before the target day, and it has a result exactly when the rule as
      written finds a qualifying snapshot at all (given both chosen snapshots have counts). */
  lemma NearestIsClosest(h: seq<Snapshot>, today: CalendarDate)
    requires Chronological(h)
    ensures LastOnOrBefore(Days(h), TargetDay(today)).Some? <==> FirstOnOrBefore(Days(h), TargetDay(today)).Some?
    ensures LastOnOrBefore(Days(h), TargetDay(today)).Some? ==>
              forall j :: 0 <= j < |h| && Ordinal(h[j].date) <= TargetDay(today) ==>
                AtOrBefore(h[j].date, h[LastOnOrBefore(Days(h), TargetDay(today)).value].date)
  {
    var ds := Days(h);
    var last := LastOnOrBefore(ds, TargetDay(today));
    if last.Some? {
      forall j | 0 <= j < |h| && Ordinal(h[j].date) <= TargetDay(today)
        ensures AtOrBefore(h[j].date, h[last.value].date)
      {
        assert ds[j] <= TargetDay(today);
        assert j <= last.value;
      }
    }
  }

  /** The rule as written measures from the oldest snapshot: on 2024-03-01, with snapshots of
      2024-02-10 (30 downloads) and 2024-02-15 (40 downloads) and 100 downloads now, it reports 70
      where the snapshot nearest to 14 days ago gives 60. */
  lemma OldestNotNearest()
    ensures var today: CalendarDate := Date(2024, 3, 1);
            var h := [Snapshot(Date(2024, 2, 10), None, None, Some(30)), Snapshot(Date(2024, 2, 15), None, None, Some(40))];
            TrailingDelta(Some(100), h, today) == Some(70) && TrailingDeltaNearest(Some(100), h, today) == Some(60)
  {
    var today: CalendarDate := Date(2024, 3, 1);
    var h := [Snapshot(Date(2024, 2, 10), None, None, Some(30)), Snapshot(Date(2024, 2, 15), None, None, Some(40))];
    var y := DaysBeforeYear(2024);
    assert Ordinal(today) == y + 60 + 1;
    assert Days(h) == [y + 31 + 10, y + 31 + 15];
    assert FirstOnOrBefore(Days(h), TargetDay(today)) == Some(0);
    assert Days(h)[..1] == [y + 31 + 10];
    assert LastOnOrBefore(Days(h), TargetDay(today)) == Some(1);
  }
}
