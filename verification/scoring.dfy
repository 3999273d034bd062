/** The summer script's preference score (`calculate_score`) and the mapping
    from the user's rainfall choice to a rain threshold (in `main`). */
module Scoring {
  import opened Wrappers

  function Abs(x: real): (r: real)
    ensures r >= 0.0 && (r == x || r == -x)
  {
    if x < 0.0 then -x else x
  }

  /** Temperature points for a deviation `d` from the wished-for temperature:
      the if/elif ladder of `calculate_score`, 0 when no rung applies. */
  function TempPoints(d: real): (p: int)
    ensures 0 <= p <= 6
  {
    if d <= 1.0 then 6
    else if d <= 2.0 then 5
    else if d <= 3.0 then 4
    else if d <= 5.0 then 3
    else if d <= 7.0 then 2
    else if d <= 10.0 then 1
    else 0
  }

  /** A scoring table: rows of (largest deviation, points), first match wins. */
  type Table = seq<(real, int)>

  /** The temperature table as published for the score. */
  const PointsTable: Table := [(1.0, 6), (2.0, 5), (3.0, 4), (5.0, 3), (7.0, 2), (10.0, 1)]

  /** Points of the first row whose bound admits `d`, or 0 past the last row. */
  function Lookup(table: Table, d: real): int
  {
    if |table| == 0 then 0
    else if d <= table[0].0 then table[0].1
    else Lookup(table[1..], d)
  }

  /** The if/elif ladder computes exactly the published table. */
  lemma TempPointsIsTable(d: real)
    ensures TempPoints(d) == Lookup(PointsTable, d)
  {
    var t0 := PointsTable;
    var t1 := [(2.0, 5), (3.0, 4), (5.0, 3), (7.0, 2), (10.0, 1)];
    var t2 := [(3.0, 4), (5.0, 3), (7.0, 2), (10.0, 1)];
    var t3 := [(5.0, 3), (7.0, 2), (10.0, 1)];
    var t4 := [(7.0, 2), (10.0, 1)];
    var t5 := [(10.0, 1)];
    var t6: Table := [];
    assert t0[1..] == t1 && t1[1..] == t2 && t2[1..] == t3 && t3[1..] == t4 && t4[1..] == t5 && t5[1..] == t6;
    assert Lookup(t5, d) == if d <= 10.0 then 1 else 0;
    assert Lookup(t4, d) == if d <= 7.0 then 2 else Lookup(t5, d);
    assert Lookup(t3, d) == if d <= 5.0 then 3 else Lookup(t4, d);
    assert Lookup(t2, d) == if d <= 3.0 then 4 else Lookup(t3, d);
    assert Lookup(t1, d) == if d <= 2.0 then 5 else Lookup(t2, d);
  }

  /** Smallest deviation that still earns `k` points (k in 1..6). */
  function Bound(k: int): real
    requires 1 <= k <= 6
  {
    PointsTable[6 - k].0
  }

  /** Reading the table the other way: at least `k` points are earned exactly
      when the deviation is within the bound of the row worth `k`. */
  lemma TempPointsAtLeast(d: real, k: int)
    requires 1 <= k <= 6
    ensures TempPoints(d) >= k <==> d <= Bound(k)
  {
  }

  /** A larger deviation never earns more temperature points. */
  lemma TempPointsAntitone(d1: real, d2: real)
    requires d1 <= d2
    ensures TempPoints(d1) >= TempPoints(d2)
  {
  }

  /** The rain bonus of `calculate_score`: 4 points when a threshold is set and
      the average rain does not exceed it. */
  function RainBonus(avgRain: real, threshold: Option<real>): (b: int)
    ensures b == 0 || b == 4
  {
    match threshold
    case None => 0
    case Some(t) => if avgRain <= t then 4 else 0
  }

  /** `calculate_score(average_temp, chosentemp, average_rain, rain_preference,
      chosenrain_threshold)`. The preference number is accepted but not read. */
  function Score(avgTemp: real, chosenTemp: real, avgRain: real, rainPreference: int, threshold: Option<real>): (score: int)
    ensures 0 <= score <= 10
  {
    TempPoints(Abs(avgTemp - chosenTemp)) + RainBonus(avgRain, threshold)
  }

  /** With the rain inputs fixed, moving the average temperature further from
      the chosen one never raises the score. */
  lemma ScoreAntitone(t1: real, t2: real, chosen: real, avgRain: real, pref: int, threshold: Option<real>)
    requires Abs(t1 - chosen) <= Abs(t2 - chosen)
    ensures Score(t1, chosen, avgRain, pref, threshold) >= Score(t2, chosen, avgRain, pref, threshold)
  {
    TempPointsAntitone(Abs(t1 - chosen), Abs(t2 - chosen));
  }

  /** The rainfall preference number never changes the score; only the threshold does. */
  lemma ScoreIgnoresPreference(avgTemp: real, chosen: real, avgRain: real, p1: int, p2: int, threshold: Option<real>)
    ensures Score(avgTemp, chosen, avgRain, p1, threshold) == Score(avgTemp, chosen, avgRain, p2, threshold)
  {
  }

  /** The threshold adds exactly 4 points over having none when it is met, and nothing otherwise. */
  lemma ScoreRainBonus(avgTemp: real, chosen: real, avgRain: real, pref: int, threshold: Option<real>)
    ensures Score(avgTemp, chosen, avgRain, pref, threshold) - Score(avgTemp, chosen, avgRain, pref, None)
            == if threshold.Some? && avgRain <= threshold.value then 4 else 0
  {
  }

  /** The table's rungs are inclusive: 1 and 10 degrees off still earn the higher points. */
  lemma ScoreBoundaries()
    ensures TempPoints(1.0) == 6 && TempPoints(1.0001) == 5
    ensures TempPoints(10.0) == 1 && TempPoints(10.0001) == 0
    ensures Score(10.0, 15.0, 0.0, 2, Some(2.0)) == 7
    ensures Score(15.0, 15.0, 1.0, 2, Some(2.0)) == 10
    ensures Score(20.0, 15.0, 3.0, 2, Some(2.0)) == 3
  {
  }

  /** The rain threshold chosen in `main`: option 1 means at most 1 mm, option 2
      at most 2 mm, and any other number means rain does not matter. */
  function ThresholdFor(rainPreference: int): (t: Option<real>)
    ensures t.Some? <==> rainPreference == 1 || rainPreference == 2
    ensures t.Some? ==> t.value == rainPreference as real
  {
    if rainPreference == 1 then Some(1.0)
    else if rainPreference == 2 then Some(2.0)
    else None
  }

  /** Choosing "at most 2 mm" never scores lower than "at most 1 mm", which
      never scores lower than "doesn't matter". */
  lemma ThresholdLeniency(avgTemp: real, chosen: real, avgRain: real, pref: int)
    ensures Score(avgTemp, chosen, avgRain, pref, ThresholdFor(3))
            <= Score(avgTemp, chosen, avgRain, pref, ThresholdFor(1))
            <= Score(avgTemp, chosen, avgRain, pref, ThresholdFor(2))
  {
  }

  /** Without a threshold the score is the temperature points alone, at most 6. */
  lemma NoThresholdNoBonus(avgTemp: real, chosen: real, avgRain: real, pref: int)
    requires pref != 1 && pref != 2
    ensures Score(avgTemp, chosen, avgRain, pref, ThresholdFor(pref)) == TempPoints(Abs(avgTemp - chosen))
    ensures Score(avgTemp, chosen, avgRain, pref, ThresholdFor(pref)) <= 6
  {
  }
}
