/**
 * The 24-slot fill of `getUsageAnalytics` (server.js:145-153): the rows of the
 * hourly query become one entry per hour of the day, 0 for the hours that
 * have no row. The SQL queries themselves are not part of this model.
 */
module Analytics {
  import opened Wrappers

  /** One `{hour, count}` object: a row of the hourly query or an entry of `hourlyData`. */
  datatype HourCount = HourCount(hour: int, count: int)

  const HOURS_PER_DAY: int := 24

  /** `hourlyRows.find(row => row.hour === h)`: the first row for hour `h`. */
  function Find(rows: seq<HourCount>, h: int): (r: Option<HourCount>)
    ensures r.None? <==> forall k :: 0 <= k < |rows| ==> rows[k].hour != h
    ensures r.Some? ==> r.value in rows && r.value.hour == h
    decreases |rows|
  {
    if rows == [] then None
    else if rows[0].hour == h then Some(rows[0])
    else Find(rows[1..], h)
  }

  /** `found ? found.count : 0`. */
  function CountAt(rows: seq<HourCount>, h: int): (c: int)
    ensures (forall k :: 0 <= k < |rows| ==> rows[k].hour != h) ==> c == 0
    ensures c != 0 ==> exists k :: 0 <= k < |rows| && rows[k].hour == h && rows[k].count == c
  {
    match Find(rows, h)
    case Some(row) => row.count
    case None => 0
  }

  /**
   * The fill loop: entry `i` is hour `i`, carrying the count of the first
   * row for that hour, or 0 when no row has it.
   */
  method FillHours(rows: seq<HourCount>) returns (hourlyData: seq<HourCount>)
    ensures |hourlyData| == HOURS_PER_DAY
    ensures forall i :: 0 <= i < HOURS_PER_DAY ==> hourlyData[i].hour == i
    ensures forall i :: 0 <= i < HOURS_PER_DAY && (forall k :: 0 <= k < |rows| ==> rows[k].hour != i) ==>
      hourlyData[i].count == 0
    ensures forall i, k ::
      (0 <= i < HOURS_PER_DAY && 0 <= k < |rows| && rows[k].hour == i &&
       forall j :: 0 <= j < k ==> rows[j].hour != i) ==> hourlyData[i] == rows[k]
  {
    hourlyData := [];
    for i := 0 to HOURS_PER_DAY
      invariant |hourlyData| == i
      invariant forall h :: 0 <= h < i ==> hourlyData[h] == HourCount(h, CountAt(rows, h))
    {
      var found := Find(rows, i);
      hourlyData := hourlyData + [HourCount(i, if found.Some? then found.value.count else 0)];
    }
    forall i, k | 0 <= i < HOURS_PER_DAY && 0 <= k < |rows| && rows[k].hour == i &&
      (forall j :: 0 <= j < k ==> rows[j].hour != i)
      ensures hourlyData[i] == rows[k]
    {
      FirstRowIsFound(rows, i, k);
    }
  }

  /** The row `find` returns is the first one for the hour. */
  lemma {:induction false} FirstRowIsFound(rows: seq<HourCount>, h: int, k: int)
    requires 0 <= k < |rows| && rows[k].hour == h
    requires forall j :: 0 <= j < k ==> rows[j].hour != h
    ensures Find(rows, h) == Some(rows[k])
    decreases k
  {
    if k > 0 {
      FirstRowIsFound(rows[1..], h, k - 1);
    }
  }
}
