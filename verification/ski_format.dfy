/** The ski script: the first five forecast samples of each ski area rendered
    as text blocks (`formatWeatherForecast`), and the per-area sections
    concatenated into one report (`main`). Number-to-text rendering of the
    provider's floats (Python's `str`) is the parameter `show`. */
module SkiFormat {
  import opened Wrappers
  import opened Text
  import opened Forecast

  /** The exceptions formatting a sample can raise. */
  datatype FormatError =
    | BlankDate        // dt_txt.split()[0] on a text without a word: IndexError
    | NoWeatherEntry   // weather[0] on an empty list: IndexError
    | NoThreeHourRain  // rain["3h"] on a rain object without that key: KeyError

  /** The precipitation field of a block: the "3h" amount, or the integer 0
      when the sample has no rain object. */
  datatype Precipitation = NotReported | Reported(mm: real)

  /** `forecast["rain"]["3h"] if "rain" in forecast else 0`. */
  function PrecipitationOf(s: Sample): (r: Result<Precipitation, FormatError>)
    ensures s.rain.None? ==> r == Ok(NotReported)
    ensures s.rain.Some? ==> (r.Ok? <==> "3h" in s.rain.value)
    ensures s.rain.Some? && r.Ok? ==> r.value == Reported(s.rain.value["3h"])
    ensures r.Err? ==> r.error == NoThreeHourRain
  {
    match s.rain
    case None => Ok(NotReported)
    case Some(m) => if "3h" in m then Ok(Reported(m["3h"])) else Err(NoThreeHourRain)
  }

  /** The amount of rain a precipitation field stands for. */
  function Amount(p: Precipitation): real
  {
    match p
    case NotReported => 0.0
    case Reported(mm) => mm
  }

  /** Where the ski script reads a precipitation field, the summer script reads
      the same amount of rain from the sample. */
  lemma PrecipitationAgreesWithRain(s: Sample)
    requires PrecipitationOf(s).Ok?
    ensures Amount(PrecipitationOf(s).value) == RainOf(s)
  {
  }

  /** The precipitation field as text: the integer 0 prints as "0". */
  function PrecipitationText(p: Precipitation, show: real -> string): string
  {
    match p
    case NotReported => "0"
    case Reported(mm) => show(mm)
  }

  /** The five lines of a block, without their newlines. */
  function BlockLines(date: string, temperature: string, description: string, windSpeed: string, precipitation: string): seq<string>
  {
    [ "Date: " + date,
      "Temperature: " + temperature + "°C",
      "Description: " + description,
      "Wind Speed: " + windSpeed + " m/s",
      "Precipitation: " + precipitation + " mm" ]
  }

  /** One block: the five lines separated by single newlines, no newline at the end. */
  function Block(date: string, temperature: string, description: string, windSpeed: string, precipitation: string): (r: string)
    ensures "Date: " + date <= r
  {
    Join("\n", BlockLines(date, temperature, description, windSpeed, precipitation))
  }

  /** The block of one sample, raising what Python raises: the date is read
      first, then the first weather entry, then the rain. */
  function FormatSample(s: Sample, show: real -> string): (r: Result<string, FormatError>)
    ensures r.Ok? <==> !AllSpace(s.dtText) && |s.descriptions| > 0 && (s.rain.Some? ==> "3h" in s.rain.value)
    ensures AllSpace(s.dtText) ==> r == Err(BlankDate)
    ensures !AllSpace(s.dtText) && |s.descriptions| == 0 ==> r == Err(NoWeatherEntry)
    ensures !AllSpace(s.dtText) && |s.descriptions| > 0 && s.rain.Some? && "3h" !in s.rain.value
            ==> r == Err(NoThreeHourRain)
  {
    match FirstWord(s.dtText)
    case None => Err(BlankDate)
    case Some(date) =>
      if |s.descriptions| == 0 then Err(NoWeatherEntry)
      else
        match PrecipitationOf(s)
        case Err(e) => Err(e)
        case Ok(p) =>
          Ok(Block(date, show(s.temp), s.descriptions[0], show(s.windSpeed), PrecipitationText(p, show)))
  }

  /** A block reads back as its five lines, in the order Date, Temperature,
      Description, Wind Speed, Precipitation, when no field holds a line break. */
  lemma BlockLinesRoundTrip(date: string, temperature: string, description: string, windSpeed: string, precipitation: string)
    requires '\n' !in date && '\n' !in temperature && '\n' !in description && '\n' !in windSpeed && '\n' !in precipitation
    ensures Split(Block(date, temperature, description, windSpeed, precipitation), '\n')
            == BlockLines(date, temperature, description, windSpeed, precipitation)
  {
    var ls := BlockLines(date, temperature, description, windSpeed, precipitation);
    assert forall k :: 0 <= k < |ls| ==> '\n' !in ls[k];
    SplitJoin('\n', ls);
  }

  /** The date field is the first whitespace-separated word of the timestamp,
      wherever it starts, and the precipitation field is the "3h" amount, or 0
      without a rain object. */
  lemma FormatSampleFields(s: Sample, show: real -> string, date: string, k: nat)
    requires IsFirstWordAt(s.dtText, date, k)
    requires |s.descriptions| > 0
    requires s.rain.Some? ==> "3h" in s.rain.value
    ensures FormatSample(s, show).Ok?
    ensures FormatSample(s, show).value
            == Block(date, show(s.temp), s.descriptions[0], show(s.windSpeed),
                     if s.rain.Some? then show(s.rain.value["3h"]) else "0")
  {
    FirstWordOf(s.dtText, date, k);
  }

  /** Worked example: the timestamp " 2024-01-15 12:00:00", with a leading
      space, gives the date "2024-01-15". */
  lemma FormatSampleLeadingSpace(s: Sample, show: real -> string)
    requires s.dtText == " 2024-01-15 12:00:00"
    requires |s.descriptions| > 0 && s.rain.None?
    ensures FormatSample(s, show).Ok?
    ensures FormatSample(s, show).value
            == Block("2024-01-15", show(s.temp), s.descriptions[0], show(s.windSpeed), "0")
  {
    var t := s.dtText;
    assert t[1..11] == "2024-01-15";
    assert IsSpace(t[0]) && IsSpace(t[11]);
    FormatSampleFields(s, show, "2024-01-15", 1);
  }

  /** `FormatSample` with the rendering fixed, as one function of the sample. */
  function Formatter(show: real -> string): Sample -> Result<string, FormatError>
  {
    s => FormatSample(s, show)
  }

  /** `formatWeatherForecast`: the blocks of all samples, in order, joined by a
      blank line; the first sample that raises ends the formatting. */
  function FormatForecast(samples: seq<Sample>, show: real -> string): (r: Result<string, FormatError>)
    ensures r.Ok? <==> forall i :: 0 <= i < |samples| ==> FormatSample(samples[i], show).Ok?
    ensures |samples| == 0 ==> r == Ok("")
  {
    match MapAll(samples, Formatter(show))
    case Err(e) => Err(e)
    case Ok(blocks) => Ok(Join("\n\n", blocks))
  }

  /** A failed formatting raises the error of the first sample that raises. */
  lemma FormatForecastFirstError(samples: seq<Sample>, show: real -> string)
    requires FormatForecast(samples, show).Err?
    ensures exists i: nat :: FirstFailure(samples, Formatter(show), i, FormatForecast(samples, show).error)
  {
    MapAllFirstError(samples, Formatter(show));
  }

  /** The blocks of a forecast whose every sample formats, one per sample. */
  function Blocks(samples: seq<Sample>, show: real -> string): (r: seq<string>)
    requires forall i :: 0 <= i < |samples| ==> FormatSample(samples[i], show).Ok?
    ensures |r| == |samples|
    ensures forall i :: 0 <= i < |samples| ==> r[i] == FormatSample(samples[i], show).value
  {
    MapAll(samples, Formatter(show)).value
  }

  /** A forecast that formats is its blocks joined by blank lines. */
  lemma FormatForecastIsJoin(samples: seq<Sample>, show: real -> string)
    requires forall i :: 0 <= i < |samples| ==> FormatSample(samples[i], show).Ok?
    ensures FormatForecast(samples, show) == Ok(Join("\n\n", Blocks(samples, show)))
  {
  }

  /** One block per sample, in sample order: the block of sample `i` sits in the
      text right after the blocks of samples 0..i-1, each followed by "\n\n". */
  lemma FormatForecastBlockAt(samples: seq<Sample>, show: real -> string, i: nat)
    requires forall j :: 0 <= j < |samples| ==> FormatSample(samples[j], show).Ok?
    requires i < |samples|
    ensures var text := FormatForecast(samples, show).value;
            var block := FormatSample(samples[i], show).value;
            var off := PartOffset("\n\n", Blocks(samples, show), i);
            off + |block| <= |text| && text[off..off + |block|] == block
  {
    FormatForecastIsJoin(samples, show);
    JoinPartAt("\n\n", Blocks(samples, show), i);
  }

  /** Formatting more samples appends their blocks after one blank line. */
  lemma FormatForecastAppend(a: seq<Sample>, b: seq<Sample>, show: real -> string)
    requires |a| > 0 && |b| > 0
    requires FormatForecast(a, show).Ok? && FormatForecast(b, show).Ok?
    ensures FormatForecast(a + b, show) == Ok(FormatForecast(a, show).value + "\n\n" + FormatForecast(b, show).value)
  {
    var f := Formatter(show);
    MapAllAppend(a, b, f);
    JoinAppend("\n\n", MapAll(a, f).value, MapAll(b, f).value);
  }

  /** One section of the report: the area's name, a blank line, its blocks, a blank line. */
  function AreaText(area: string, formatted: string): (r: string)
    ensures |r| == |area| + |formatted| + 14
    ensures r[..|area|] == area
    ensures r[|area|..|area| + 12] == " Forecast:\n\n"
    ensures r[|area| + 12..|r| - 2] == formatted
    ensures r[|r| - 2..] == "\n\n"
  {
    area + " Forecast:\n\n" + formatted + "\n\n"
  }

  /** The forecast section of one area, from at most its first five samples
      (`getWeatherForecast` returns `data["list"][:5]`). */
  function AreaSection(area: string, fetch: string -> seq<Sample>, show: real -> string): (r: Result<string, FormatError>)
    ensures r.Ok? <==> FormatForecast(Take(fetch(area), Window), show).Ok?
    ensures r.Ok? ==> r.value == AreaText(area, FormatForecast(Take(fetch(area), Window), show).value)
    ensures r.Err? ==> r.error == FormatForecast(Take(fetch(area), Window), show).error
  {
    match FormatForecast(Take(fetch(area), Window), show)
    case Err(e) => Err(e)
    case Ok(formatted) => Ok(AreaText(area, formatted))
  }

  /** `AreaSection` with the source of samples and the rendering fixed. */
  function Section(fetch: string -> seq<Sample>, show: real -> string): string -> Result<string, FormatError>
  {
    area => AreaSection(area, fetch, show)
  }

  /** The report of `main`: the sections of the areas in catalog order; the
      first area whose forecast cannot be formatted ends the run. */
  function SkiReport(areas: seq<string>, fetch: string -> seq<Sample>, show: real -> string): (r: Result<string, FormatError>)
    ensures r.Ok? <==> forall i :: 0 <= i < |areas| ==> AreaSection(areas[i], fetch, show).Ok?
    ensures |areas| == 0 ==> r == Ok("")
  {
    ConcatResultsSucceeds(areas, Section(fetch, show));
    ConcatResults(areas, Section(fetch, show))
  }

  /** The loop of `main` as written: `forecasts_text += area_forecast_text` for
      each area in turn, an exception ending the loop. */
  method SkiReportLoop(areas: seq<string>, fetch: string -> seq<Sample>, show: real -> string) returns (r: Result<string, FormatError>)
    ensures r == SkiReport(areas, fetch, show)
  {
    var forecastsText := "";
    var i := 0;
    while i < |areas|
      invariant 0 <= i <= |areas|
      invariant ConcatResults(areas[..i], Section(fetch, show)) == Ok(forecastsText)
    {
      var area := areas[i];
      var weatherForecast := Take(fetch(area), Window);
      var formatted := FormatForecast(weatherForecast, show);
      ConcatResultsSnoc(areas, i, Section(fetch, show));
      if formatted.Err? {
        r := Err(formatted.error);
        ConcatResultsPrefixError(areas, i + 1, Section(fetch, show));
        return;
      }
      var areaForecastText := AreaText(area, formatted.value);
      forecastsText := forecastsText + areaForecastText;
      i := i + 1;
    }
    assert areas[..i] == areas;
    r := Ok(forecastsText);
  }

  /** The sections of a report whose every area formats, one per area, in catalog order. */
  function Sections(areas: seq<string>, fetch: string -> seq<Sample>, show: real -> string): (r: seq<string>)
    requires forall i :: 0 <= i < |areas| ==> AreaSection(areas[i], fetch, show).Ok?
    ensures |r| == |areas|
    ensures forall i :: 0 <= i < |areas| ==> r[i] == AreaSection(areas[i], fetch, show).value
  {
    MapAll(areas, Section(fetch, show)).value
  }

  /** When every area formats, the report is exactly the concatenation, in
      catalog order, of "<area> Forecast:\n\n" + blocks + "\n\n" per area. */
  lemma SkiReportIsSections(areas: seq<string>, fetch: string -> seq<Sample>, show: real -> string)
    requires forall i :: 0 <= i < |areas| ==> AreaSection(areas[i], fetch, show).Ok?
    ensures SkiReport(areas, fetch, show) == Ok(Concat(Sections(areas, fetch, show)))
  {
    ConcatResultsOk(areas, Section(fetch, show));
  }
}
