/** The summer script's `main` after the user input: score every location of
    the catalog, sort by score (stable, descending), keep the first ten, number
    them, and render the report text that is then e-mailed. */
module Ranking {
  import opened Wrappers
  import opened Text
  import opened Forecast
  import opened Scoring

  /** An entry of the location catalog (`ski_areas`): name and coordinates. */
  datatype Location = Location(name: string, latitude: real, longitude: real)

  /** One item of `ski_areas_with_scores`: the area with its score and averages. */
  datatype Scored = Scored(area: string, score: int, avgTemp: real, avgRain: real)

  /** Most entries the report lists. */
  const MaxEntries: nat := 10

  // ---------------------------------------------------------------------------
  // Scoring the catalog
  // ---------------------------------------------------------------------------

  /** Summarize and score one location; `fetch` stands for the forecast request. */
  function ScoreLocation(loc: Location, fetch: (real, real) -> seq<Sample>, chosenTemp: real, rainPreference: int): (r: Scored)
    ensures r.area == loc.name
    ensures 0 <= r.score <= 10 && r.avgRain >= 0.0
  {
    var st := Summarize(fetch(loc.latitude, loc.longitude));
    Scored(loc.name, Score(st.avgTemp, chosenTemp, st.avgRain, rainPreference, ThresholdFor(rainPreference)), st.avgTemp, st.avgRain)
  }

  /** The scoring loop of `main`: one scored item per location, in catalog order. */
  function ScoreCatalog(catalog: seq<Location>, fetch: (real, real) -> seq<Sample>, chosenTemp: real, rainPreference: int): (r: seq<Scored>)
    ensures |r| == |catalog|
    ensures forall i :: 0 <= i < |r| ==> r[i] == ScoreLocation(catalog[i], fetch, chosenTemp, rainPreference)
  {
    seq(|catalog|, i requires 0 <= i < |catalog| => ScoreLocation(catalog[i], fetch, chosenTemp, rainPreference))
  }

  // ---------------------------------------------------------------------------
  // sorted(items, key=score, reverse=True)
  // ---------------------------------------------------------------------------

  predicate Descending(s: seq<Scored>)
  {
    forall i, j :: 0 <= i < j < |s| ==> s[i].score >= s[j].score
  }

  /** No item of `s` scores above `b`. */
  predicate AtMost(s: seq<Scored>, b: int)
  {
    forall i :: 0 <= i < |s| ==> s[i].score <= b
  }

  /** A head that scores at least as much as a descending tail keeps the sequence descending. */
  lemma ConsDescending(h: Scored, rest: seq<Scored>)
    requires Descending(rest) && AtMost(rest, h.score)
    ensures Descending([h] + rest)
  {
    var r := [h] + rest;
    forall i, j | 0 <= i < j < |r|
      ensures r[i].score >= r[j].score
    {
      if i > 0 {
        assert r[i] == rest[i - 1] && r[j] == rest[j - 1];
      } else {
        assert r[j] == rest[j - 1];
      }
    }
  }

  /** Inserts `x`, which came before every element of `sorted` in the input,
      ahead of the first element that does not outscore it. */
  function Insert(x: Scored, sorted: seq<Scored>): (r: seq<Scored>)
    ensures multiset(r) == multiset(sorted) + multiset{x}
  {
    if |sorted| == 0 then [x]
    else if sorted[0].score > x.score then
      assert sorted == [sorted[0]] + sorted[1..];
      [sorted[0]] + Insert(x, sorted[1..])
    else
      [x] + sorted
  }

  /** Inserting an item no higher than a bound keeps every item within the bound. */
  lemma {:induction false} InsertAtMost(x: Scored, sorted: seq<Scored>, b: int)
    requires AtMost(sorted, b) && x.score <= b
    ensures AtMost(Insert(x, sorted), b)
    decreases |sorted|
  {
    if |sorted| > 0 && sorted[0].score > x.score {
      InsertAtMost(x, sorted[1..], b);
    }
  }

  /** Insertion keeps a descending sequence descending. */
  lemma {:induction false} InsertDescending(x: Scored, sorted: seq<Scored>)
    requires Descending(sorted)
    ensures Descending(Insert(x, sorted))
    decreases |sorted|
  {
    if |sorted| > 0 {
      var h := sorted[0];
      if h.score > x.score {
        InsertDescending(x, sorted[1..]);
        InsertAtMost(x, sorted[1..], h.score);
        ConsDescending(h, Insert(x, sorted[1..]));
      } else {
        ConsDescending(x, sorted);
      }
    }
  }

  /** Stable insertion sort on the score, highest first. */
  function SortByScore(s: seq<Scored>): (r: seq<Scored>)
    ensures multiset(r) == multiset(s)
    ensures Descending(r)
  {
    if |s| == 0 then []
    else
      assert s == [s[0]] + s[1..];
      InsertDescending(s[0], SortByScore(s[1..]));
      Insert(s[0], SortByScore(s[1..]))
  }

  /** The items scoring exactly `k`, in their order in `s`. */
  function Filter(s: seq<Scored>, k: int): seq<Scored>
  {
    if |s| == 0 then []
    else if s[0].score == k then [s[0]] + Filter(s[1..], k)
    else Filter(s[1..], k)
  }

  /** Inserting `x` leaves the relative order of every score class unchanged
      and puts `x` first among the items with its own score. */
  lemma {:induction false} FilterInsert(x: Scored, sorted: seq<Scored>, k: int)
    ensures Filter(Insert(x, sorted), k) == if x.score == k then [x] + Filter(sorted, k) else Filter(sorted, k)
    decreases |sorted|
  {
    var r := Insert(x, sorted);
    if |sorted| == 0 {
      assert r[1..] == [];
    } else if sorted[0].score > x.score {
      var rest := Insert(x, sorted[1..]);
      assert r[1..] == rest;
      FilterInsert(x, sorted[1..], k);
    } else {
      assert r[1..] == sorted;
    }
  }

  /** The sort is stable: items with equal scores keep their input order. */
  lemma {:induction false} SortStable(s: seq<Scored>, k: int)
    ensures Filter(SortByScore(s), k) == Filter(s, k)
    decreases |s|
  {
    if |s| > 0 {
      FilterInsert(s[0], SortByScore(s[1..]), k);
      SortStable(s[1..], k);
    }
  }

  /** The first item of a descending sequence carries its highest score. */
  lemma HeadIsMax(r: seq<Scored>, y: Scored)
    requires Descending(r) && y in r
    ensures r[0].score >= y.score
  {
    var j :| 0 <= j < |r| && r[j] == y;
    if j > 0 {
      assert r[0].score >= r[j].score;
    }
  }

  /** Two descending permutations of the same items that agree on the class of
      the first item's score start with the same item. */
  lemma SameHead(r1: seq<Scored>, r2: seq<Scored>)
    requires |r1| > 0 && multiset(r1) == multiset(r2)
    requires Descending(r1) && Descending(r2)
    requires Filter(r1, r1[0].score) == Filter(r2, r1[0].score)
    ensures |r2| > 0 && r1[0] == r2[0]
  {
    var a := r1[0];
    assert a in multiset(r2);
    var b := r2[0];
    assert b in multiset(r1);
    HeadIsMax(r2, a);
    HeadIsMax(r1, b);
    var m := a.score;
    assert b.score == m;
    var f1, f2 := Filter(r1[1..], m), Filter(r2[1..], m);
    assert Filter(r1, m) == [a] + f1;
    assert Filter(r2, m) == [b] + f2;
    assert ([a] + f1)[0] == a && ([b] + f2)[0] == b;
  }

  /** The items of a non-empty sequence after its head. */
  lemma MultisetTail(r: seq<Scored>)
    requires |r| > 0
    ensures multiset(r[1..]) == multiset(r) - multiset{r[0]}
  {
    assert r == [r[0]] + r[1..];
    assert multiset(r) == multiset{r[0]} + multiset(r[1..]);
  }

  lemma ConsCancel(a: Scored, f1: seq<Scored>, f2: seq<Scored>)
    requires [a] + f1 == [a] + f2
    ensures f1 == f2
  {
    assert f1 == ([a] + f1)[1..];
    assert f2 == ([a] + f2)[1..];
  }

  /** Removing the same head from both sides keeps every score class equal. */
  lemma TailFilters(r1: seq<Scored>, r2: seq<Scored>, k: int)
    requires |r1| > 0 && |r2| > 0 && r1[0] == r2[0]
    requires Filter(r1, k) == Filter(r2, k)
    ensures Filter(r1[1..], k) == Filter(r2[1..], k)
  {
    if r1[0].score == k {
      ConsCancel(r1[0], Filter(r1[1..], k), Filter(r2[1..], k));
    }
  }

  /** A descending order that keeps every score class in input order is unique:
      two permutations of the same items that are both descending and agree on
      the order inside every score class are equal. */
  lemma {:induction false} StableSortUnique(r1: seq<Scored>, r2: seq<Scored>)
    requires multiset(r1) == multiset(r2)
    requires Descending(r1) && Descending(r2)
    requires forall k :: Filter(r1, k) == Filter(r2, k)
    ensures r1 == r2
    decreases |r1|
  {
    assert |r1| == |multiset(r1)| == |multiset(r2)| == |r2|;
    if |r1| > 0 {
      SameHead(r1, r2);
      var a := r1[0];
      forall k
        ensures Filter(r1[1..], k) == Filter(r2[1..], k)
      {
        TailFilters(r1, r2, k);
      }
      assert r1 == [a] + r1[1..] && r2 == [a] + r2[1..];
      MultisetTail(r1);
      MultisetTail(r2);
      assert Descending(r1[1..]) && Descending(r2[1..]);
      StableSortUnique(r1[1..], r2[1..]);
    }
  }

  /** `SortByScore` is the one order Python's stable `sorted(..., reverse=True)`
      on the score can produce: any permutation that is descending and keeps
      ties in input order equals it. */
  lemma SortIsSortedReverse(s: seq<Scored>, r: seq<Scored>)
    requires multiset(r) == multiset(s)
    requires Descending(r)
    requires forall k :: Filter(r, k) == Filter(s, k)
    ensures r == SortByScore(s)
  {
    forall k
      ensures Filter(r, k) == Filter(SortByScore(s), k)
    {
      SortStable(s, k);
    }
    StableSortUnique(r, SortByScore(s));
  }

  /** No two items share an area name (`ski_areas_with_scores` is a dictionary). */
  predicate DistinctAreas(s: seq<Scored>)
  {
    forall i, j :: 0 <= i < j < |s| ==> s[i].area != s[j].area
  }

  lemma {:induction false} InsertDistinct(x: Scored, sorted: seq<Scored>)
    requires DistinctAreas(sorted)
    requires forall j :: 0 <= j < |sorted| ==> sorted[j].area != x.area
    ensures DistinctAreas(Insert(x, sorted))
    decreases |sorted|
  {
    if |sorted| > 0 && sorted[0].score > x.score {
      var rest := Insert(x, sorted[1..]);
      InsertDistinct(x, sorted[1..]);
      assert sorted == [sorted[0]] + sorted[1..];
      forall j | 0 <= j < |rest|
        ensures rest[j].area != sorted[0].area
      {
        assert rest[j] in multiset(rest);
        if rest[j] != x {
          var p :| 0 <= p < |sorted[1..]| && sorted[1..][p] == rest[j];
          assert sorted[p + 1] == rest[j];
        }
      }
    }
  }

  /** Sorting never duplicates an area. */
  lemma {:induction false} SortDistinct(s: seq<Scored>)
    requires DistinctAreas(s)
    ensures DistinctAreas(SortByScore(s))
    decreases |s|
  {
    if |s| > 0 {
      var rest := SortByScore(s[1..]);
      SortDistinct(s[1..]);
      forall j | 0 <= j < |rest|
        ensures rest[j].area != s[0].area
      {
        assert rest[j] in multiset(rest);
        var p :| 0 <= p < |s[1..]| && s[1..][p] == rest[j];
        assert s[p + 1] == rest[j];
      }
      InsertDistinct(s[0], rest);
    }
  }

  // ---------------------------------------------------------------------------
  // Ranking and rendering
  // ---------------------------------------------------------------------------

  /** A numbered line of the report. */
  datatype RankedEntry = RankedEntry(rank: nat, entry: Scored)

  /** The first ten items of the sorted list, numbered from 1. */
  function Rank(sorted: seq<Scored>): (r: seq<RankedEntry>)
    ensures |r| == if |sorted| < MaxEntries then |sorted| else MaxEntries
    ensures forall i :: 0 <= i < |r| ==> r[i] == RankedEntry(i + 1, sorted[i])
  {
    var n := if |sorted| < MaxEntries then |sorted| else MaxEntries;
    seq(n, i requires 0 <= i < n => RankedEntry(i + 1, sorted[i]))
  }

  /** The three rain labels of the report. */
  datatype RainLabel = NoRain | LightRain | HeavyRain

  /** The label chosen for an average rainfall: exactly 0 is dry, strictly
      between 0 and 2 is light, anything else is heavy. */
  function LabelOf(avgRain: real): (l: RainLabel)
    ensures l == HeavyRain <==> avgRain < 0.0 || avgRain >= 2.0
  {
    if avgRain == 0.0 then NoRain
    else if 0.0 < avgRain < 2.0 then LightRain
    else HeavyRain
  }

  function LabelLine(l: RainLabel): string
  {
    match l
    case NoRain => "No rain expected."
    case LightRain => "Light rain expected."
    case HeavyRain => "Heavy rain expected."
  }

  function Severity(l: RainLabel): nat
  {
    match l
    case NoRain => 0
    case LightRain => 1
    case HeavyRain => 2
  }

  /** Over the rainfall averages the aggregation can produce (never negative),
      the label grows with the rain. */
  lemma LabelMonotone(r1: real, r2: real)
    requires 0.0 <= r1 <= r2
    ensures Severity(LabelOf(r1)) <= Severity(LabelOf(r2))
  {
  }

  /** The label boundaries: 0 is dry, just under 2 is light, 2 itself is heavy. */
  lemma LabelBoundaries()
    ensures LabelOf(0.0) == NoRain
    ensures LabelOf(0.001) == LightRain
    ensures LabelOf(1.999) == LightRain
    ensures LabelOf(2.0) == HeavyRain
    ensures LabelOf(-0.5) == HeavyRain
  {
  }

  /** Every average falls in exactly one label's interval: dry at exactly 0,
      light strictly between 0 and 2, heavy from 2 up (and below 0). */
  lemma LabelIntervals(r: real)
    ensures LabelOf(r) == NoRain <==> r == 0.0
    ensures LabelOf(r) == LightRain <==> 0.0 < r < 2.0
    ensures LabelOf(r) == HeavyRain <==> r < 0.0 || 2.0 <= r
  {
  }

  /** Python's `round(x)` to an integer: the nearest integer, ties to the even one. */
  function RoundHalfEven(x: real): (n: int)
    ensures -0.5 <= x - n as real <= 0.5
    ensures (x - n as real == 0.5 || n as real - x == 0.5) ==> n % 2 == 0
  {
    var f := x.Floor;
    var frac := x - f as real;
    if frac < 0.5 then f
    else if frac > 0.5 then f + 1
    else if f % 2 == 0 then f
    else f + 1
  }

  /** Rounding is determined by its contract: the nearest integer, and on a tie the even one. */
  lemma RoundHalfEvenUnique(x: real, n: int)
    requires -0.5 <= x - n as real <= 0.5
    requires (x - n as real == 0.5 || n as real - x == 0.5) ==> n % 2 == 0
    ensures RoundHalfEven(x) == n
  {
  }

  /** First line of an entry: rank and area. */
  function RankLine(e: RankedEntry): string
  {
    IntToStr(e.rank) + ". " + e.entry.area + " Forecast:"
  }

  /** Second line of an entry: the average temperature rounded to a whole degree. */
  function TempLine(e: RankedEntry): string
  {
    "      Average Temperature: " + IntToStr(RoundHalfEven(e.entry.avgTemp)) + "°C"
  }

  /** Third line of an entry: the rain label. */
  function RainLine(e: RankedEntry): string
  {
    "      " + LabelLine(LabelOf(e.entry.avgRain))
  }

  /** The text of one report entry, each of its three lines ending in a newline. */
  function EntryText(e: RankedEntry): (r: string)
    ensures IntToStr(e.rank) + ". " + e.entry.area + " Forecast:\n" <= r
    ensures r[|r| - 1] == '\n'
  {
    RankLine(e) + "\n" + TempLine(e) + "\n" + RainLine(e) + "\n"
  }

  /** An entry is three lines, rank line, temperature line, rain line, in that
      order, provided the area name has no line break. */
  lemma EntryTextLines(e: RankedEntry)
    requires '\n' !in e.entry.area
    ensures Split(EntryText(e), '\n') == [RankLine(e), TempLine(e), RainLine(e), ""]
  {
    IntToStrShape(e.rank);
    IntToStrShape(RoundHalfEven(e.entry.avgTemp));
    assert '\n' !in LabelLine(LabelOf(e.entry.avgRain));
    SplitLines(RankLine(e), TempLine(e), RainLine(e));
  }

  /** One entry followed by the blank line the loop appends after it. */
  function Paragraph(e: RankedEntry): string
  {
    EntryText(e) + "\n\n"
  }

  /** The paragraphs of the entries, in rank order. */
  function Paragraphs(entries: seq<RankedEntry>): (r: seq<string>)
    ensures |r| == |entries|
    ensures forall i :: 0 <= i < |entries| ==> r[i] == Paragraph(entries[i])
  {
    seq(|entries|, i requires 0 <= i < |entries| => Paragraph(entries[i]))
  }

  /** The report text: the paragraphs of the entries concatenated in rank order. */
  function ReportText(entries: seq<RankedEntry>): string
  {
    Concat(Paragraphs(entries))
  }

  /** A report over a longer list extends the report over its prefix. */
  lemma ReportTextAppend(a: seq<RankedEntry>, b: seq<RankedEntry>)
    ensures ReportText(a + b) == ReportText(a) + ReportText(b)
  {
    assert Paragraphs(a + b) == Paragraphs(a) + Paragraphs(b);
    ConcatAppend(Paragraphs(a), Paragraphs(b));
  }

  /** The text of the first `n` paragraphs of the report. */
  function RenderedPrefix(sortedAreas: seq<Scored>, n: nat): string
    requires n <= |Rank(sortedAreas)|
  {
    Concat(Paragraphs(Rank(sortedAreas))[..n])
  }

  /** One turn of the report loop appends the paragraph of the next ranked entry. */
  lemma RenderStep(sortedAreas: seq<Scored>, index: nat)
    requires index < |sortedAreas| && index < MaxEntries
    ensures RenderedPrefix(sortedAreas, index + 1)
            == RenderedPrefix(sortedAreas, index) + (EntryText(RankedEntry(index + 1, sortedAreas[index])) + "\n\n")
  {
    ConcatSnoc(Paragraphs(Rank(sortedAreas)), index);
  }

  /** Once every ranked entry is rendered, the text is the whole report. */
  lemma RenderDone(sortedAreas: seq<Scored>, n: nat)
    requires n == |Rank(sortedAreas)|
    ensures RenderedPrefix(sortedAreas, n) == ReportText(Rank(sortedAreas))
  {
    assert Paragraphs(Rank(sortedAreas))[..n] == Paragraphs(Rank(sortedAreas));
  }

  /** The report loop of `main` as written: a rank counter that starts at 1,
      one paragraph per sorted area, and a break once the counter passes 10. */
  method RenderReport(sortedAreas: seq<Scored>) returns (text: string)
    ensures text == ReportText(Rank(sortedAreas))
  {
    text := "";
    var rank := 1;
    var index := 0;
    while index < |sortedAreas|
      invariant 0 <= index <= |sortedAreas| && index < MaxEntries
      invariant rank == index + 1
      invariant text == RenderedPrefix(sortedAreas, index)
    {
      var areaText := EntryText(RankedEntry(rank, sortedAreas[index]));
      RenderStep(sortedAreas, index);
      text := text + (areaText + "\n\n");
      rank := rank + 1;
      if rank > MaxEntries {
        RenderDone(sortedAreas, index + 1);
        break;
      }
      index := index + 1;
    }
    if index == |sortedAreas| {
      RenderDone(sortedAreas, index);
    }
  }

  /** Sorted and ranked report entries for a scored catalog. */
  function RankAreas(scored: seq<Scored>): seq<RankedEntry>
  {
    Rank(SortByScore(scored))
  }

  /** The report for a catalog: score, sort, rank and render. */
  function SummerReport(catalog: seq<Location>, fetch: (real, real) -> seq<Sample>, chosenTemp: real, rainPreference: int): (r: string)
    ensures |catalog| == 0 ==> r == ""
  {
    ReportText(RankAreas(ScoreCatalog(catalog, fetch, chosenTemp, rainPreference)))
  }

  /** The report of a sorted list: for its first min(10, n) items, the
      paragraph of the entry numbered i+1, concatenated in rank order. */
  lemma ReportParagraphs(sorted: seq<Scored>)
    ensures var n := if |sorted| < MaxEntries then |sorted| else MaxEntries;
            ReportText(Rank(sorted)) == Concat(seq(n, i requires 0 <= i < n => Paragraph(RankedEntry(i + 1, sorted[i]))))
  {
    var n := if |sorted| < MaxEntries then |sorted| else MaxEntries;
    var ps := Paragraphs(Rank(sorted));
    var qs := seq(n, i requires 0 <= i < n => Paragraph(RankedEntry(i + 1, sorted[i])));
    assert |ps| == |qs|;
    forall i | 0 <= i < n
      ensures ps[i] == qs[i]
    {
    }
    assert ps == qs;
  }

  /** The whole summer report: for the first min(10, n) items of the stable
      descending sort of the scored catalog, the paragraph of the entry
      numbered i+1, concatenated in rank order. */
  lemma SummerReportParagraphs(catalog: seq<Location>, fetch: (real, real) -> seq<Sample>, chosenTemp: real, rainPreference: int)
    ensures var sorted := SortByScore(ScoreCatalog(catalog, fetch, chosenTemp, rainPreference));
            var n := if |catalog| < MaxEntries then |catalog| else MaxEntries;
            && |sorted| == |catalog|
            && SummerReport(catalog, fetch, chosenTemp, rainPreference)
               == Concat(seq(n, i requires 0 <= i < n => Paragraph(RankedEntry(i + 1, sorted[i]))))
  {
    var scored := ScoreCatalog(catalog, fetch, chosenTemp, rainPreference);
    var sorted := SortByScore(scored);
    assert |sorted| == |scored| by {
      assert |multiset(sorted)| == |multiset(scored)|;
    }
    ReportParagraphs(sorted);
  }

  /** The items scoring `k` among the first `n` of `s` are the first of those in `s`. */
  lemma {:induction false} FilterPrefix(s: seq<Scored>, n: nat, k: int)
    requires n <= |s|
    ensures Filter(s[..n], k) <= Filter(s, k)
    decreases n
  {
    if n > 0 {
      assert s[..n][1..] == s[1..][..n - 1];
      FilterPrefix(s[1..], n - 1, k);
    }
  }

  /** The report holds min(10, n) entries, ranked 1, 2, 3, ... without gaps,
      and they are the head of the stable descending sort of the scored catalog. */
  lemma ReportIsHeadOfSort(scored: seq<Scored>)
    ensures var es := RankAreas(scored);
      && |es| == (if |scored| < MaxEntries then |scored| else MaxEntries)
      && (forall i :: 0 <= i < |es| ==> es[i].rank == i + 1)
      && Entries(es) == SortByScore(scored)[..|es|]
  {
    var sorted := SortByScore(scored);
    var es := RankAreas(scored);
    assert |sorted| == |scored| by {
      assert |multiset(sorted)| == |multiset(scored)|;
    }
    assert Entries(es) == sorted[..|es|];
  }

  /** Every reported entry comes from the catalog, and scores never rise down the report. */
  lemma ReportFromCatalog(scored: seq<Scored>)
    ensures var es := Entries(RankAreas(scored));
      && (forall i :: 0 <= i < |es| ==> es[i] in scored)
      && Descending(es)
  {
    var sorted := SortByScore(scored);
    var es := Entries(RankAreas(scored));
    assert es == sorted[..|es|];
    forall i | 0 <= i < |es|
      ensures es[i] in scored
    {
      assert sorted[i] in multiset(sorted);
    }
  }

  /** No catalog item left out of the report outscores an item kept in it. */
  lemma ReportKeepsBest(scored: seq<Scored>, i: nat, y: Scored)
    requires i < |RankAreas(scored)|
    requires y in scored && y !in Entries(RankAreas(scored))
    ensures RankAreas(scored)[i].entry.score >= y.score
  {
    var sorted := SortByScore(scored);
    var es := Entries(RankAreas(scored));
    assert es == sorted[..|es|];
    assert y in multiset(sorted);
    var j :| 0 <= j < |sorted| && sorted[j] == y;
    assert forall m :: 0 <= m < |es| ==> sorted[m] in es;
    assert |es| <= j;
  }

  /** Entries with equal scores appear in catalog order: within each score, the
      reported areas are the first ones of the catalog with that score. */
  lemma ReportStable(scored: seq<Scored>, k: int)
    ensures Filter(Entries(RankAreas(scored)), k) <= Filter(scored, k)
  {
    var sorted := SortByScore(scored);
    var es := Entries(RankAreas(scored));
    assert es == sorted[..|es|];
    FilterPrefix(sorted, |es|, k);
    SortStable(scored, k);
  }

  /** No area appears twice in the report when the catalog names are distinct. */
  lemma ReportDistinct(scored: seq<Scored>)
    requires DistinctAreas(scored)
    ensures DistinctAreas(Entries(RankAreas(scored)))
  {
    SortDistinct(scored);
    var es := Entries(RankAreas(scored));
    assert es == SortByScore(scored)[..|es|];
  }

  /** The scored items behind a list of report entries. */
  function Entries(es: seq<RankedEntry>): (r: seq<Scored>)
    ensures |r| == |es|
    ensures forall i :: 0 <= i < |es| ==> r[i] == es[i].entry
  {
    seq(|es|, i requires 0 <= i < |es| => es[i].entry)
  }

  /** Three items whose scores rank the second above the first above the third
      sort in exactly that order. */
  lemma SortThree(a: Scored, b: Scored, c: Scored)
    requires b.score > a.score > c.score
    ensures SortByScore([a, b, c]) == [b, a, c]
  {
    assert [a, b, c][1..] == [b, c] && [b, c][1..] == [c] && [c][1..] == [];
    assert SortByScore([c]) == [c];
    assert Insert(b, [c]) == [b, c];
    assert SortByScore([b, c]) == [b, c];
    assert Insert(a, [c]) == [a, c];
    assert Insert(a, [b, c]) == [b] + Insert(a, [c]);
  }

  /** Three locations with mean temperatures 10, 15, 20 and mean rain 0, 1, 3,
      wanting 15 degrees and at most 2 mm, score 7, 10 and 3 and are reported
      in the order second, first, third. */
  lemma ThreeLocationExample()
    ensures var s := [ Scored("loc1", Score(10.0, 15.0, 0.0, 2, ThresholdFor(2)), 10.0, 0.0),
                       Scored("loc2", Score(15.0, 15.0, 1.0, 2, ThresholdFor(2)), 15.0, 1.0),
                       Scored("loc3", Score(20.0, 15.0, 3.0, 2, ThresholdFor(2)), 20.0, 3.0) ];
      s[0].score == 7 && s[1].score == 10 && s[2].score == 3 &&
      SortByScore(s) == [s[1], s[0], s[2]]
  {
    ScoreBoundaries();
    SortThree(Scored("loc1", 7, 10.0, 0.0), Scored("loc2", 10, 15.0, 1.0), Scored("loc3", 3, 20.0, 3.0));
  }
}
