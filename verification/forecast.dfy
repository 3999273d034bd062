/** Forecast samples as the weather provider returns them, and the summer
    script's aggregation of one location's forecast into an average
    temperature and an average rainfall (`getWeatherForecast`, after the HTTP
    request and JSON decoding). Temperatures and rain are exact reals here,
    where the Python code uses binary floats. */
module Forecast {
  import opened Wrappers

  /** One entry of the provider's forecast list: one 3-hour interval. */
  datatype Sample = Sample(
    dtText: string,                  // "dt_txt", e.g. "2024-07-01 12:00:00"
    temp: real,                      // main.temp, in degrees Celsius
    descriptions: seq<string>,       // weather[*].description
    windSpeed: real,                 // wind.speed, in m/s
    rain: Option<map<string, real>>  // the optional "rain" object, mm per interval key ("3h", "1h", ...)
  )

  /** Mean temperature and mean rainfall of one location. */
  datatype Stats = Stats(avgTemp: real, avgRain: real)

  /** Number of samples the scripts look at (`list[:5]`). */
  const Window: nat := 5

  /** The fixed divisor of both averages, used whatever the number of samples. */
  const Divisor: real := 5.0

  /** Python's `xs[:n]`: the first `n` elements, or all of them when there are fewer. */
  function Take<T>(xs: seq<T>, n: nat): (r: seq<T>)
    ensures |r| == if |xs| < n then |xs| else n
    ensures forall i :: 0 <= i < |r| ==> r[i] == xs[i]
  {
    if |xs| <= n then xs else xs[..n]
  }

  /** Rain of one sample as the summer script reads it:
      `day["rain"].get('3h', 0)` when the sample has a rain object, else nothing. */
  function RainOf(s: Sample): (mm: real)
    ensures s.rain.None? ==> mm == 0.0
    ensures s.rain.Some? && "3h" !in s.rain.value ==> mm == 0.0
    ensures s.rain.Some? && "3h" in s.rain.value ==> mm == s.rain.value["3h"]
  {
    match s.rain
    case None => 0.0
    case Some(m) => if "3h" in m then m["3h"] else 0.0
  }

  /** Running total of the temperatures, accumulated front to back. */
  function TotalTemp(xs: seq<Sample>): real
  {
    if |xs| == 0 then 0.0 else TotalTemp(xs[..|xs| - 1]) + xs[|xs| - 1].temp
  }

  /** Running total of the rain, accumulated front to back. */
  function TotalRain(xs: seq<Sample>): real
  {
    if |xs| == 0 then 0.0 else TotalRain(xs[..|xs| - 1]) + RainOf(xs[|xs| - 1])
  }

  /** The aggregation of `getWeatherForecast`: both totals over the first five
      samples divided by five; the rain average is 0 unless the total is positive. */
  function Summarize(samples: seq<Sample>): (st: Stats)
    ensures st.avgRain >= 0.0
    ensures st.avgRain > 0.0 <==> TotalRain(Take(samples, Window)) > 0.0
  {
    var window := Take(samples, Window);
    var totalTemp := TotalTemp(window);
    var totalRain := TotalRain(window);
    Stats(totalTemp / Divisor, if totalRain > 0.0 then totalRain / Divisor else 0.0)
  }

  /** The aggregation loop as written in the script: two accumulators updated
      sample by sample over `data["list"][:5]`. */
  method SummarizeLoop(samples: seq<Sample>) returns (avgTemp: real, avgRain: real)
    ensures Stats(avgTemp, avgRain) == Summarize(samples)
  {
    var window := Take(samples, Window);
    var totalTemp := 0.0;
    var totalRain := 0.0;
    var i := 0;
    while i < |window|
      invariant 0 <= i <= |window|
      invariant totalTemp == TotalTemp(window[..i])
      invariant totalRain == TotalRain(window[..i])
    {
      var day := window[i];
      assert window[..i + 1][..i] == window[..i];
      totalTemp := totalTemp + day.temp;
      if day.rain.Some? {
        var rain := day.rain.value;
        totalRain := totalRain + (if "3h" in rain then rain["3h"] else 0.0);
      }
      i := i + 1;
    }
    assert window[..i] == window;
    avgTemp := totalTemp / Divisor;
    avgRain := if totalRain > 0.0 then totalRain / Divisor else 0.0;
  }

  /** Sum of the temperatures, added up from the head: an independent
      reference for the running total. */
  function SumTemps(xs: seq<Sample>): real
  {
    if |xs| == 0 then 0.0 else xs[0].temp + SumTemps(xs[1..])
  }

  /** Sum of the rain amounts, added up from the head. */
  function SumRains(xs: seq<Sample>): real
  {
    if |xs| == 0 then 0.0 else RainOf(xs[0]) + SumRains(xs[1..])
  }

  /** Adding one more sample at the end of a head-first sum. */
  lemma {:induction false} SumsSnoc(xs: seq<Sample>, x: Sample)
    ensures SumTemps(xs + [x]) == SumTemps(xs) + x.temp
    ensures SumRains(xs + [x]) == SumRains(xs) + RainOf(x)
    decreases |xs|
  {
    if |xs| > 0 {
      assert (xs + [x])[1..] == xs[1..] + [x];
      SumsSnoc(xs[1..], x);
    } else {
      assert xs + [x] == [x];
      assert [x][1..] == [];
    }
  }

  /** The running totals of the loop equal the head-first sums. */
  lemma {:induction false} TotalsAreSums(xs: seq<Sample>)
    ensures TotalTemp(xs) == SumTemps(xs)
    ensures TotalRain(xs) == SumRains(xs)
    decreases |xs|
  {
    if |xs| > 0 {
      var init := xs[..|xs| - 1];
      TotalsAreSums(init);
      SumsSnoc(init, xs[|xs| - 1]);
      assert init + [xs[|xs| - 1]] == xs;
    }
  }

  /** For every forecast, whatever its length: the temperature average is the
      sum over the first five samples divided by a fixed 5, and the rain average
      is that sum over 5 when positive and 0 otherwise. */
  lemma SummarizeMeans(s: seq<Sample>)
    ensures var w := Take(s, Window);
            && Summarize(s).avgTemp == SumTemps(w) / 5.0
            && Summarize(s).avgRain == (if SumRains(w) > 0.0 then SumRains(w) / 5.0 else 0.0)
  {
    TotalsAreSums(Take(s, Window));
  }

  /** Samples after the fifth never influence the averages. */
  lemma SummarizeIgnoresTail(head: seq<Sample>, tail: seq<Sample>)
    requires |head| >= Window
    ensures Summarize(head + tail) == Summarize(head)
  {
    assert Take(head + tail, Window) == Take(head, Window);
  }

  /** An empty forecast is not an error: both averages are 0. */
  lemma SummarizeEmpty()
    ensures Summarize([]) == Stats(0.0, 0.0)
  {
  }

  /** The divisor stays 5 when fewer samples arrive: one sample contributes a
      fifth of its temperature. */
  lemma SummarizeSingle(x: Sample)
    ensures Summarize([x]).avgTemp == x.temp / 5.0
    ensures Summarize([x]).avgRain == (if RainOf(x) > 0.0 then RainOf(x) / 5.0 else 0.0)
  {
    assert Take([x], Window) == [x];
    assert [x][..0] == [];
    assert TotalTemp([x]) == x.temp;
    assert TotalRain([x]) == RainOf(x);
  }

  /** With at least five samples, the averages are the arithmetic means of the
      first five temperatures and (when positive) of the first five rain amounts. */
  lemma SummarizeFullWindow(s: seq<Sample>)
    requires |s| >= Window
    ensures Summarize(s).avgTemp == (s[0].temp + s[1].temp + s[2].temp + s[3].temp + s[4].temp) / 5.0
    ensures var total := RainOf(s[0]) + RainOf(s[1]) + RainOf(s[2]) + RainOf(s[3]) + RainOf(s[4]);
            Summarize(s).avgRain == if total > 0.0 then total / 5.0 else 0.0
  {
    var w := Take(s, Window);
    assert w == s[..5];
    assert w[..1][..0] == [];
    assert w[..2][..1] == w[..1];
    assert w[..3][..2] == w[..2];
    assert w[..4][..3] == w[..3];
    assert w[..4] == w[..|w| - 1];
    assert TotalTemp(w[..1]) == s[0].temp;
    assert TotalTemp(w[..2]) == s[0].temp + s[1].temp;
    assert TotalTemp(w[..3]) == s[0].temp + s[1].temp + s[2].temp;
    assert TotalTemp(w[..4]) == s[0].temp + s[1].temp + s[2].temp + s[3].temp;
    assert TotalRain(w[..1]) == RainOf(s[0]);
    assert TotalRain(w[..2]) == RainOf(s[0]) + RainOf(s[1]);
    assert TotalRain(w[..3]) == RainOf(s[0]) + RainOf(s[1]) + RainOf(s[2]);
    assert TotalRain(w[..4]) == RainOf(s[0]) + RainOf(s[1]) + RainOf(s[2]) + RainOf(s[3]);
  }

  /** Rain totals vanish when no sample reports a "3h" amount. */
  lemma {:induction false} TotalRainZero(xs: seq<Sample>)
    requires forall i :: 0 <= i < |xs| ==> RainOf(xs[i]) == 0.0
    ensures TotalRain(xs) == 0.0
    decreases |xs|
  {
    if |xs| > 0 {
      TotalRainZero(xs[..|xs| - 1]);
    }
  }

  /** A window in which no sample has a rain object, or none has a "3h" key,
      averages to no rain at all. */
  lemma SummarizeDry(s: seq<Sample>)
    requires forall i :: 0 <= i < |s| && i < Window ==> s[i].rain.None? || "3h" !in s[i].rain.value
    ensures Summarize(s).avgRain == 0.0
  {
    var w := Take(s, Window);
    assert forall i :: 0 <= i < |w| ==> RainOf(w[i]) == 0.0;
    TotalRainZero(w);
  }
}
