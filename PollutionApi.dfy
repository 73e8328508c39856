/**
 * The pure parts of the pollution API client (`src/services/pollutionAPI.js`):
 * the DD-MM-YYYY date codec, the city-id map, the per-day aggregation of
 * pollutant labels (`analyzePollution`), and what `getHistoricData` makes of
 * an HTTP response. The HTTP exchange itself is a function parameter.
 */
module PollutionApi {
  import opened Wrappers
  import opened Text
  import opened Dates

  const ApiBaseUrl := "/api"

  // ---------------------------------------------------------------------------
  // Dates on the wire: DD-MM-YYYY
  // ---------------------------------------------------------------------------

  /**
   * `s` spells `d` in the DD-MM-YYYY layout: a two-digit day and a two-digit
   * one-based month that read back as numbers, dashes at positions 2 and 5,
   * then the year's numeral with its sign and no padding.
   */
  predicate ShowsDate(s: string, d: Date)
    requires d.Valid()
  {
    && |s| >= 7 && s[2] == '-' && s[5] == '-'
    && ParseNumber(s[..2]) == Some(d.day as nat)
    && ParseNumber(s[3..5]) == Some((d.month0 + 1) as nat)
    && (d.year >= 0 ==> s[6..] == NatToDecimal(d.year))
    && (d.year < 0 ==> s[6] == '-' && s[7..] == NatToDecimal(-d.year))
    && (1000 <= d.year < 10000 ==> |s| == 10)
  }

  /** `formatDate`: day and month padded to two digits, month one-based, year unpadded. */
  function FormatDate(d: Date): (s: string)
    requires d.Valid()
    ensures ShowsDate(s, d)
  {
    var day := PadStart2(IntToDecimal(d.day));
    var month := PadStart2(IntToDecimal(d.month0 + 1));
    PaddedPiece(d.day);
    PaddedPiece(d.month0 + 1);
    JoinedShowsDate(day, month, d);
    day + "-" + month + "-" + IntToDecimal(d.year)
  }

  /** A day or month number below 100, padded to two digits, reads back as itself. */
  lemma PaddedPiece(n: nat)
    requires n < 100
    ensures |PadStart2(IntToDecimal(n))| == 2
    ensures ParseNumber(PadStart2(IntToDecimal(n))) == Some(n)
  {
    PadStart2Decimal(n);
  }

  /** Two-digit day and month pieces joined with the year by dashes spell the date. */
  lemma JoinedShowsDate(a: string, b: string, d: Date)
    requires d.Valid()
    requires |a| == 2 && ParseNumber(a) == Some(d.day as nat)
    requires |b| == 2 && ParseNumber(b) == Some((d.month0 + 1) as nat)
    ensures ShowsDate(a + "-" + b + "-" + IntToDecimal(d.year), d)
  {
    var c := IntToDecimal(d.year);
    var s := a + "-" + b + "-" + c;
    assert s[..2] == a && s[3..5] == b && s[6..] == c;
    if d.year < 0 {
      assert s[7..] == c[1..];
    }
  }

  /**
   * `parseDate` up to the components handed to `new Date(year, month - 1, day)`:
   * the first three `-`-separated pieces read as numbers. A missing or
   * non-numeric piece gives None (the Invalid Date).
   */
  function ParseDate(dateString: string): (r: Option<Date>)
    ensures r.Some? <==>
      var parts := Split(dateString, '-');
      |parts| >= 3 && AllDigits(parts[0]) && AllDigits(parts[1]) && AllDigits(parts[2])
    ensures r.Some? ==> r.value.year >= 0 && r.value.month0 >= -1 && r.value.day >= 0
    ensures r.Some? ==>
      var parts := Split(dateString, '-');
      r.value == Date(DigitsValue(parts[2]), DigitsValue(parts[1]) - 1, DigitsValue(parts[0]))
  {
    var parts := Split(dateString, '-');
    if |parts| < 3 then None
    else
      match (ParseNumber(parts[0]), ParseNumber(parts[1]), ParseNumber(parts[2]))
      case (Some(day), Some(month), Some(year)) => Some(Date(year, month as int - 1, day))
      case _ => None
  }

  /** `split('-')` of three dash-free pieces joined by dashes gives the pieces back. */
  lemma SplitThree(a: string, b: string, c: string)
    requires '-' !in a && '-' !in b && '-' !in c
    ensures Split(a + "-" + b + "-" + c, '-') == [a, b, c]
  {
    SplitJoin3(a, b, c, '-');
  }

  /**
   * On any DD-MM-YYYY string of digit pieces (padded or not, such as "5-3-2024"),
   * the first piece is the day, the second the one-based month and the third the year.
   */
  lemma ParseDateOfPieces(day: string, month: string, year: string, d: nat, m: nat, y: nat)
    requires ParseNumber(day) == Some(d) && ParseNumber(month) == Some(m) && ParseNumber(year) == Some(y)
    ensures ParseDate(day + "-" + month + "-" + year) == Some(Date(y, m - 1, d))
  {
    DigitsHaveNoDash(day);
    DigitsHaveNoDash(month);
    DigitsHaveNoDash(year);
    SplitThree(day, month, year);
  }

  /** An unpadded date string, as a caller may send it, still reads day first. */
  lemma ParseUnpaddedDate()
    ensures ParseDate("5-3-2024") == Some(Date(2024, 2, 5))
  {
    assert ParseNumber("5") == Some(5) && ParseNumber("3") == Some(3) && ParseNumber("2") == Some(2);
    assert "20" == "2" + ['0'];
    ParseNumberAppend("2", '0', 2);
    assert "202" == "20" + ['2'];
    ParseNumberAppend("20", '2', 20);
    assert "2024" == "202" + ['4'];
    ParseNumberAppend("202", '4', 202);
    ParseDateOfPieces("5", "3", "2024", 5, 3, 2024);
    assert "5-3-2024" == "5" + "-" + "3" + "-" + "2024";
  }

  /** The pieces `split('-')` finds in a date string of the DD-MM-YYYY shape. */
  lemma DatePieces(s: string)
    requires |s| >= 7 && s[2] == '-' && s[5] == '-'
    requires AllDigits(s[..2]) && AllDigits(s[3..5])
    ensures AllDigits(s[6..]) ==> Split(s, '-') == [s[..2], s[3..5], s[6..]]
    ensures s[6] == '-' && AllDigits(s[7..]) ==> Split(s, '-') == [s[..2], s[3..5], "", s[7..]]
  {
    var a, b := s[..2], s[3..5];
    DigitsHaveNoDash(a);
    DigitsHaveNoDash(b);
    if AllDigits(s[6..]) {
      DigitsHaveNoDash(s[6..]);
      assert s == a + "-" + b + "-" + s[6..];
      SplitThree(a, b, s[6..]);
    }
    if s[6] == '-' && AllDigits(s[7..]) {
      var c, e: string := s[7..], [];
      DigitsHaveNoDash(c);
      assert s == a + ['-'] + (b + ['-'] + (e + ['-'] + c));
      SplitAtFirst(a, '-', b + ['-'] + (e + ['-'] + c));
      SplitAtFirst(b, '-', e + ['-'] + c);
      SplitAtFirst(e, '-', c);
      SplitNoSeparator(c, '-');
    }
  }

  lemma DigitsHaveNoDash(s: string)
    requires AllDigits(s)
    ensures '-' !in s
  {
    assert forall i :: 0 <= i < |s| ==> s[i] != '-';
  }

  /** Parsing a formatted date gives back its year, zero-based month and day. */
  lemma ParseFormatRoundTrip(d: Date)
    requires d.Valid() && d.year >= 0
    ensures ParseDate(FormatDate(d)) == Some(d)
  {
    DatePieces(FormatDate(d));
    ParseNumberOfDecimal(d.year);
  }

  /**
   * A negative year is written with its own minus sign, so `split('-')` sees an
   * empty third piece, which `Number` reads as 0: the year comes back as 0.
   */
  lemma ParseFormatNegativeYear(d: Date)
    requires d.Valid() && d.year < 0
    ensures ParseDate(FormatDate(d)) == Some(Date(0, d.month0, d.day))
  {
    DatePieces(FormatDate(d));
  }

  // ---------------------------------------------------------------------------
  // City ids
  // ---------------------------------------------------------------------------

  /** The city names by id, id 1 first. */
  const CityNames: seq<string> := ["Tokyo", "Barcelona", "London", "Ankara", "Mumbai", "Madrid"]

  /** `getCityName`: `cityMap[cityId] || 'Ankara'`. */
  function GetCityName(cityId: int): (name: string)
    ensures 1 <= cityId <= |CityNames| ==> name == CityNames[cityId - 1]
    ensures !(1 <= cityId <= |CityNames|) ==> name == "Ankara"
  {
    var cityMap := map[1 := "Tokyo", 2 := "Barcelona", 3 := "London", 4 := "Ankara", 5 := "Mumbai", 6 := "Madrid"];
    if cityId in cityMap && cityMap[cityId] != "" then cityMap[cityId] else "Ankara"
  }

  /** Every id names one of the six cities, and the six ids name six different cities. */
  lemma CityNameTotal(cityId: int, otherId: int)
    ensures GetCityName(cityId) in CityNames
    ensures 1 <= cityId < otherId <= 6 ==> GetCityName(cityId) != GetCityName(otherId)
  {
    if 1 <= cityId < otherId <= 6 {
      var a, b := GetCityName(cityId), GetCityName(otherId);
      assert a[0] != b[0] || |a| != |b| || a[1] != b[1];
    }
  }

  // ---------------------------------------------------------------------------
  // analyzePollution
  // ---------------------------------------------------------------------------

  /** A `categories` object: its (pollutant, label) entries in key order. */
  type Categories = seq<(string, string)>

  /**
   * `levelMap` of `analyzePollution`, in declaration order. It is its own
   * scale: Poor and Moderate share 3, and Hazardous is absent.
   */
  const LevelMap: seq<(string, int)> :=
    [("Good", 1), ("Satisfactory", 2), ("Poor", 3), ("Moderate", 3), ("Severe", 4)]

  /** Property lookup `m[key]` on an object given by its entries. */
  function Lookup(m: seq<(string, int)>, key: string): (r: Option<int>)
    ensures r.None? <==> forall i :: 0 <= i < |m| ==> m[i].0 != key
    ensures r.Some? ==> exists i :: 0 <= i < |m| && m[i] == (key, r.value)
  {
    if m == [] then None
    else if m[0].0 == key then Some(m[0].1)
    else Lookup(m[1..], key)
  }

  /** `levelMap[label] || 0`: an exact, case-sensitive match, 0 for any other label. */
  function Score(levelName: string): (s: int)
    ensures 0 <= s <= 4
    ensures s == 0 <==> forall i :: 0 <= i < |LevelMap| ==> LevelMap[i].0 != levelName
    ensures s != 0 ==> Lookup(LevelMap, levelName) == Some(s)
  {
    match Lookup(LevelMap, levelName)
    case Some(v) => if v != 0 then v else 0
    case None => 0
  }

  /** `Object.keys(levelMap).find(key => levelMap[key] === value)`. */
  function FirstKeyWithValue(m: seq<(string, int)>, value: int): (r: Option<string>)
    ensures r.None? <==> forall i :: 0 <= i < |m| ==> m[i].1 != value
    ensures r.Some? ==>
      exists i :: 0 <= i < |m| && m[i] == (r.value, value) &&
        (forall j :: 0 <= j < i ==> m[j].1 != value)
  {
    if m == [] then None
    else if m[0].1 == value then Some(m[0].0)
    else FirstKeyWithValue(m[1..], value)
  }

  /** The `pollutantValues` object: every pollutant with the score of its label, in key order. */
  function ScoredPollutants(categories: Categories): (p: seq<(string, int)>)
    ensures |p| == |categories|
    ensures forall i :: 0 <= i < |p| ==> p[i] == (categories[i].0, Score(categories[i].1))
  {
    seq(|categories|, i requires 0 <= i < |categories| => (categories[i].0, Score(categories[i].1)))
  }

  /** `Object.values(...)` of a scored object. */
  function Values(p: seq<(string, int)>): (v: seq<int>)
    ensures |v| == |p| && forall i :: 0 <= i < |p| ==> v[i] == p[i].1
  {
    seq(|p|, i requires 0 <= i < |p| => p[i].1)
  }

  /** The scores of a day's categories, in key order. */
  function Scores(categories: Categories): seq<int>
  {
    Values(ScoredPollutants(categories))
  }

  /** `values.reduce((sum, v) => sum + v, 0)`. */
  function Sum(s: seq<int>): int
  {
    if s == [] then 0 else Sum(s[..|s| - 1]) + s[|s| - 1]
  }

  /** `Math.max(...values)` on a non-empty list. */
  function Max(s: seq<int>): (m: int)
    requires |s| > 0
    ensures m in s && forall i :: 0 <= i < |s| ==> s[i] <= m
  {
    if |s| == 1 then s[0]
    else
      var rest := Max(s[1..]);
      if s[0] >= rest then s[0] else rest
  }

  function Min(s: seq<int>): (m: int)
    requires |s| > 0
    ensures m in s && forall i :: 0 <= i < |s| ==> m <= s[i]
  {
    if |s| == 1 then s[0]
    else
      var rest := Min(s[1..]);
      if s[0] <= rest then s[0] else rest
  }

  /** `sum / values.length`; None stands for the NaN of an empty day. */
  function Mean(values: seq<int>): (avg: Option<real>)
    ensures avg.None? <==> |values| == 0
    ensures avg.Some? ==> avg.value * |values| as real == Sum(values) as real
  {
    if |values| == 0 then None else Some(Sum(values) as real / |values| as real)
  }

  /**
   * The worst-case rule: the first `levelMap` key whose score is the maximum,
   * `'Good'` when none is (all labels unknown, or no categories at all, where
   * `Math.max()` is minus infinity).
   */
  function OverallLevel(values: seq<int>): (level: string)
    ensures level in {"Good", "Satisfactory", "Poor", "Severe"}
    ensures |values| == 0 ==> level == "Good"
    ensures |values| > 0 && 1 <= Max(values) <= 4 ==> Lookup(LevelMap, level) == Some(Max(values))
    ensures |values| > 0 && !(1 <= Max(values) <= 4) ==> level == "Good"
    ensures |values| > 0 && Max(values) == 3 ==> level == "Poor"
  {
    if |values| == 0 then "Good"
    else
      WorstKey(Max(values));
      ScoreOfKnownLabels();
      match FirstKeyWithValue(LevelMap, Max(values))
      case Some(key) => key
      case None => "Good"
  }

  datatype Analysis = Analysis(overallLevel: string, averageValue: Option<real>, pollutants: seq<(string, int)>)

  /** What `analyzePollution` returns, as a function of its argument. */
  function Analyze(categories: Categories): (a: Analysis)
    ensures a.pollutants == ScoredPollutants(categories)
    ensures |Scores(categories)| == |categories|
    ensures a.averageValue.None? <==> |categories| == 0
    ensures a.averageValue == Mean(Scores(categories))
    ensures a.overallLevel == OverallLevel(Scores(categories))
  {
    var values := Scores(categories);
    assert |values| == |categories|;
    Analysis(OverallLevel(values), Mean(values), ScoredPollutants(categories))
  }

  /** `analyzePollution`: scores the labels one pollutant at a time, then averages and takes the worst. */
  method AnalyzePollution(categories: Categories) returns (a: Analysis)
    ensures a == Analyze(categories)
    ensures |a.pollutants| == |categories|
    ensures forall i :: 0 <= i < |categories| ==>
      a.pollutants[i] == (categories[i].0, Score(categories[i].1))
  {
    var pollutants := categories;
    var pollutantValues: seq<(string, int)> := [];
    var i := 0;
    while i < |pollutants|
      invariant 0 <= i <= |pollutants|
      invariant |pollutantValues| == i
      invariant forall j :: 0 <= j < i ==>
        pollutantValues[j] == (pollutants[j].0, Score(pollutants[j].1))
    {
      var (pollutant, levelName) := pollutants[i];
      pollutantValues := pollutantValues + [(pollutant, Score(levelName))];
      i := i + 1;
    }
    assert pollutantValues == ScoredPollutants(categories);
    var values := Values(pollutantValues);
    assert values == Scores(categories);
    var averageValue := Mean(values);
    var overallLevel := OverallLevel(values);
    a := Analysis(overallLevel, averageValue, pollutantValues);
  }

  /** The five known labels score 1, 2, 3, 3 and 4: Poor and Moderate tie. */
  lemma ScoreOfKnownLabels()
    ensures Score("Good") == 1 && Score("Satisfactory") == 2 && Score("Severe") == 4
    ensures Score("Poor") == 3 && Score("Moderate") == 3
  {
    assert LevelMap[0].0 == "Good" && LevelMap[1].0 == "Satisfactory";
    assert LevelMap[2].0 == "Poor" && LevelMap[3].0 == "Moderate" && LevelMap[4].0 == "Severe";
  }

  /** Labels are matched exactly: Hazardous and other spellings of known labels score 0. */
  lemma ScoreOfOtherLabels()
    ensures Score("Hazardous") == 0 && Score("good") == 0 && Score("") == 0
  {
    forall i | 0 <= i < |LevelMap| ensures LevelMap[i].0 != "Hazardous" && LevelMap[i].0 != "good" {
      assert LevelMap[i].0[0] in "GSPMS";
    }
  }

  lemma {:induction false} SumBounds(s: seq<int>, lo: int, hi: int)
    requires forall i :: 0 <= i < |s| ==> lo <= s[i] <= hi
    ensures |s| * lo <= Sum(s) <= |s| * hi
  {
    if s != [] {
      var init := s[..|s| - 1];
      SumBounds(init, lo, hi);
      assert |s| * lo == |init| * lo + lo && |s| * hi == |init| * hi + hi;
    }
  }

  lemma MeanBetween(total: int, n: nat, lo: int, hi: int)
    requires n > 0 && n * lo <= total <= n * hi
    ensures lo as real <= total as real / n as real <= hi as real
  {
    var q := total as real / n as real;
    assert q - lo as real == (total - n * lo) as real / n as real;
    assert hi as real - q == (n * hi - total) as real / n as real;
  }

  /** The average of a non-empty day lies between its lowest and highest score, so within 0..4. */
  lemma AverageWithinScores(categories: Categories)
    requires |categories| > 0
    ensures var values := Scores(categories); var avg := Analyze(categories).averageValue;
      avg.Some? && Min(values) as real <= avg.value <= Max(values) as real
    ensures 0.0 <= Analyze(categories).averageValue.value <= 4.0
  {
    var values := Scores(categories);
    SumBounds(values, Min(values), Max(values));
    MeanBetween(Sum(values), |values|, Min(values), Max(values));
    assert Min(values) in values && Max(values) in values;
  }

  /** A day with no categories has no average (NaN) and is still rated Good. */
  lemma EmptyDay()
    ensures Analyze([]) == Analysis("Good", None, [])
  {
  }

  /** Which `levelMap` key `find` returns for a score: one for 1..4, none for any other number. */
  lemma WorstKey(m: int)
    ensures FirstKeyWithValue(LevelMap, m) ==
      if m == 1 then Some("Good")
      else if m == 2 then Some("Satisfactory")
      else if m == 3 then Some("Poor")
      else if m == 4 then Some("Severe")
      else None
  {
    assert LevelMap[1..][1..][1..][1..] == [("Severe", 4)];
  }

  /** Every score of a day lies in 0..4, and the maximum is one of them. */
  lemma ScoresInRange(categories: Categories)
    requires |categories| > 0
    ensures 0 <= Max(Scores(categories)) <= 4
  {
    var values := Scores(categories);
    var i :| 0 <= i < |values| && values[i] == Max(values);
    assert values[i] == Score(categories[i].1);
  }

  /**
   * The overall level is the worst category's: its score is the maximum when
   * any label is known, a maximum of 3 always reads Poor (never Moderate), and
   * an all-unknown day reads Good.
   */
  lemma OverallLevelIsWorst(categories: Categories)
    requires |categories| > 0
    ensures var values := Scores(categories); var level := Analyze(categories).overallLevel;
      && (Max(values) == 0 ==> level == "Good")
      && (Max(values) >= 1 ==> Lookup(LevelMap, level) == Some(Max(values)))
      && (Max(values) == 3 ==> level == "Poor")
  {
    var m := Max(Scores(categories));
    ScoresInRange(categories);
    WorstKey(m);
    ScoreOfKnownLabels();
  }

  /** No category scores above the overall level, and Moderate is never the overall level. */
  lemma OverallLevelDominates(categories: Categories)
    ensures Analyze(categories).overallLevel in {"Good", "Satisfactory", "Poor", "Severe"}
    ensures forall i :: 0 <= i < |categories| ==>
      Score(categories[i].1) <= Score(Analyze(categories).overallLevel)
  {
    if |categories| > 0 {
      var values := Scores(categories);
      var m := Max(values);
      ScoresInRange(categories);
      WorstKey(m);
      OverallLevelIsWorst(categories);
      forall i | 0 <= i < |categories|
        ensures Score(categories[i].1) <= Score(Analyze(categories).overallLevel)
      {
        assert values[i] == Score(categories[i].1);
      }
    }
  }

  lemma {:induction false} SumAppend(s: seq<int>, t: seq<int>)
    ensures Sum(s + t) == Sum(s) + Sum(t)
  {
    if t != [] {
      assert (s + t)[..|s + t| - 1] == s + t[..|t| - 1];
      SumAppend(s, t[..|t| - 1]);
    } else {
      assert s + t == s;
    }
  }

  lemma {:induction false} SumPermutation(s: seq<int>, t: seq<int>)
    requires multiset(s) == multiset(t)
    ensures Sum(s) == Sum(t)
    decreases |s|
  {
    if s != [] {
      var x := s[|s| - 1];
      assert x in multiset(t);
      var k :| 0 <= k < |t| && t[k] == x;
      var s' := s[..|s| - 1];
      var t' := t[..k] + t[k + 1..];
      assert s == s' + [x];
      assert t == t[..k] + [x] + t[k + 1..];
      assert multiset(s) == multiset(s') + multiset{x};
      assert multiset(t) == multiset(t[..k]) + multiset{x} + multiset(t[k + 1..]);
      assert multiset(t') == multiset(t[..k]) + multiset(t[k + 1..]);
      assert multiset(s') == multiset(s) - multiset{x};
      assert multiset(t') == multiset(t) - multiset{x};
      SumPermutation(s', t');
      SumAppend(t[..k] + [x], t[k + 1..]);
      SumAppend(t[..k], [x]);
      SumAppend(t[..k], t[k + 1..]);
      assert Sum([x]) == x by {
        assert [x][..0] == [];
      }
    } else {
      assert t == [];
    }
  }

  /** The maximum depends only on which scores occur. */
  lemma MaxOfSameElements(s: seq<int>, t: seq<int>)
    requires |s| > 0 && multiset(s) == multiset(t)
    ensures |t| > 0 && Max(s) == Max(t)
  {
    assert |multiset(t)| == |t|;
    assert Max(s) in multiset(t) && Max(t) in multiset(s);
  }

  /**
   * The average and the overall level do not depend on the order of the
   * categories: any reordering of the same scores gives the same result.
   */
  lemma AggregationOrderIndependent(c1: Categories, c2: Categories)
    requires multiset(Scores(c1)) == multiset(Scores(c2))
    ensures Analyze(c1).averageValue == Analyze(c2).averageValue
    ensures Analyze(c1).overallLevel == Analyze(c2).overallLevel
  {
    var v1, v2 := Scores(c1), Scores(c2);
    assert |v1| == |multiset(v1)| == |multiset(v2)| == |v2|;
    SumPermutation(v1, v2);
    if |v1| > 0 {
      MaxOfSameElements(v1, v2);
    }
  }

  /** A clean pollutant beside an unrecognised Hazardous levelName: scores 1 and 0, average 0.5, Good. */
  lemma AnalyzeGoodAndHazardous()
    ensures Analyze([("pm25", "Good"), ("no2", "Hazardous")])
      == Analysis("Good", Some(0.5), [("pm25", 1), ("no2", 0)])
  {
    var c := [("pm25", "Good"), ("no2", "Hazardous")];
    assert Scores(c) == [1, 0];
    assert Sum([1, 0]) == 1 by {
      assert [1, 0][..1] == [1];
      assert [1][..0] == [];
    }
  }

  // ---------------------------------------------------------------------------
  // getHistoricData without the network
  // ---------------------------------------------------------------------------

  /** One entry of `results`: the day's DD-MM-YYYY string and its categories. */
  datatype DayData = DayData(date: string, categories: Categories)

  /** A parsed JSON body: `message` on errors, `city` and `results` on success. */
  datatype Payload = Payload(message: Option<string>, city: string, results: Option<seq<DayData>>)

  /** What `fetch` resolves to; `body` is None when `response.json()` fails or yields null. */
  datatype Response = Response(status: int, statusText: string, body: Option<Payload>) {
    predicate Ok() { 200 <= status <= 299 }
  }

  /** A `{date, value}` item for the heat map. */
  datatype CalendarEntry = CalendarEntry(date: Date, value: Option<real>)

  /** One transformed day. */
  datatype DayRecord = DayRecord(
    date: Date,
    dateString: string,
    cityName: string,
    pollutionLevel: string,
    value: Option<real>,
    pollutants: seq<(string, int)>,
    calendarData: CalendarEntry)

  /** How the promise returned by `getHistoricData` is rejected. */
  datatype FetchError =
    | HttpError(message: string)   // the `Error(errorMessage)` thrown on a non-ok status
    | UnreadableBody                // `response.json()` failed, or `data` was null, on an ok status
    | InvalidTimeValue              // `toISOString()` on the Invalid Date

  /** The URL requested for a city name and two formatted dates. */
  function RequestUrl(city: string, start: string, end: string): (url: string)
    ensures url == "/api/pollution?city=" + city + "&startDate=" + start + "&endDate=" + end
  {
    ApiBaseUrl + "/pollution?city=" + city + "&startDate=" + start + "&endDate=" + end
  }

  /**
   * The query of a request URL splits at `&` into the three parameters, provided
   * no value contains an `&` (city names and DD-MM-YYYY dates do not).
   */
  lemma RequestUrlQuery(city: string, start: string, end: string)
    requires '&' !in city && '&' !in start && '&' !in end
    ensures Split(RequestUrl(city, start, end), '&') ==
      ["/api/pollution?city=" + city, "startDate=" + start, "endDate=" + end]
  {
    var a, b, c := "/api/pollution?city=" + city, "startDate=" + start, "endDate=" + end;
    NoAmpersandAfter("/api/pollution?city=", city);
    NoAmpersandAfter("startDate=", start);
    NoAmpersandAfter("endDate=", end);
    assert RequestUrl(city, start, end) == a + ['&'] + b + ['&'] + c;
    SplitJoin3(a, b, c, '&');
  }

  lemma NoAmpersandAfter(key: string, value: string)
    requires forall i :: 0 <= i < |key| ==> key[i] != '&'
    requires '&' !in value
    ensures '&' !in key + value
  {
    assert forall i :: 0 <= i < |key + value| ==> (key + value)[i] != '&' by {
      forall i | 0 <= i < |key + value| ensures (key + value)[i] != '&' {
        if i >= |key| {
          assert (key + value)[i] == value[i - |key|];
        }
      }
    }
  }

  /** The error body carries a truthy `message`. */
  predicate HasMessage(errorData: Option<Payload>) {
    errorData.Some? && errorData.value.message.Some? && errorData.value.message.value != ""
  }

  /** The message thrown on a non-ok status: the body's `message` if truthy, else the status line. */
  function ErrorMessage(status: int, statusText: string, errorData: Option<Payload>): (msg: string)
    ensures msg != ""
    ensures HasMessage(errorData) ==> msg == errorData.value.message.value
    ensures !HasMessage(errorData) ==> msg == "HTTP " + IntToDecimal(status) + ": " + statusText
  {
    if HasMessage(errorData) then errorData.value.message.value
    else "HTTP " + IntToDecimal(status) + ": " + statusText
  }

  /**
   * Without a truthy body message, the status line is the message, and the
   * status and its text can be read back from it.
   */
  lemma ErrorMessageChoice(status: nat, statusText: string, errorData: Option<Payload>)
    ensures !HasMessage(errorData) ==>
      var msg := ErrorMessage(status, statusText, errorData);
      var k := |NatToDecimal(status)|;
      && |msg| == 7 + k + |statusText|
      && msg[..5] == "HTTP "
      && ParseNumber(msg[5..5 + k]) == Some(status)
      && msg[5 + k..7 + k] == ": "
      && msg[7 + k..] == statusText
  {
    var msg := ErrorMessage(status, statusText, errorData);
    if !HasMessage(errorData) {
      var num := NatToDecimal(status);
      assert msg == "HTTP " + num + ": " + statusText;
      assert msg[5..5 + |num|] == num;
      ParseNumberOfDecimal(status);
    }
  }

  /** The date string gives a `Date` whose `toISOString` succeeds. */
  predicate ParsesToTime(dateString: string) {
    ParseDate(dateString).Some? && InTimeRange(ParseDate(dateString).value)
  }

  /**
   * The body of the `results.map` callback for one day. `toISOString` throws on the
   * Invalid Date: an unparseable string, or a day outside the time value range.
   */
  function TransformDay(city: string, dayData: DayData): (r: Result<DayRecord, FetchError>)
    ensures r.Failure? <==> !ParsesToTime(dayData.date)
    ensures r.Failure? ==> r.error == InvalidTimeValue
    ensures r.Success? ==>
      var rec := r.value; var analysis := Analyze(dayData.categories);
      && Some(rec.date) == ParseDate(dayData.date)
      && rec.dateString == dayData.date
      && rec.cityName == city
      && rec.pollutionLevel == analysis.overallLevel
      && rec.value == rec.calendarData.value == analysis.averageValue
      && rec.pollutants == analysis.pollutants
      && rec.calendarData.date == rec.date
  {
    match ParseDate(dayData.date)
    case None => Failure(InvalidTimeValue)
    case Some(date) =>
      if !InTimeRange(date) then Failure(InvalidTimeValue)
      else
        var analysis := Analyze(dayData.categories);
        Success(DayRecord(date, dayData.date, city, analysis.overallLevel, analysis.averageValue,
          analysis.pollutants, CalendarEntry(date, analysis.averageValue)))
  }

  /** All six digits of the last year a `Date` can reach. */
  lemma LastYearDigits()
    ensures ParseNumber("275760") == Some(275760)
  {
    assert ParseNumber("2") == Some(2);
    assert "27" == "2" + ['7'];
    ParseNumberAppend("2", '7', 2);
    assert "275" == "27" + ['5'];
    ParseNumberAppend("27", '5', 27);
    assert "2757" == "275" + ['7'];
    ParseNumberAppend("275", '7', 275);
    assert "27576" == "2757" + ['6'];
    ParseNumberAppend("2757", '6', 2757);
    assert "275760" == "27576" + ['0'];
    ParseNumberAppend("27576", '0', 27576);
  }

  lemma DayMonthDigits()
    ensures ParseNumber("13") == Some(13) && ParseNumber("14") == Some(14) && ParseNumber("09") == Some(9)
  {
    assert "13"[..1] == "1" && "14"[..1] == "1" && "09"[..1] == "0";
    assert DigitsValue("1") == 1 && DigitsValue("0") == 0;
  }

  /** The date strings of 13 and 14 September 275760, read as the code reads them. */
  lemma LastYearDates()
    ensures ParseDate("13-09-275760") == Some(Date(275760, 8, 13))
    ensures ParseDate("14-09-275760") == Some(Date(275760, 8, 14))
  {
    LastYearDigits();
    DayMonthDigits();
    ParseDateOfPieces("13", "09", "275760", 13, 9, 275760);
    ParseDateOfPieces("14", "09", "275760", 14, 9, 275760);
    assert "13-09-275760" == "13" + "-" + "09" + "-" + "275760";
    assert "14-09-275760" == "14" + "-" + "09" + "-" + "275760";
  }

  /** 13 September 275760 is still a day the code can report; the next one is rejected. */
  lemma LastReportableDay(city: string, categories: Categories)
    ensures TransformDay(city, DayData("13-09-275760", categories)).Success?
    ensures TransformDay(city, DayData("14-09-275760", categories)).Failure?
  {
    LastYearDates();
    PastLastTimeDay();
  }

  /**
   * `data.results.map(...)`: one record per entry, in order. The map throws at the
   * first date that does not give a time value, and the error is the same whichever
   * entry it is.
   */
  function TransformResults(city: string, results: seq<DayData>): (r: Result<seq<DayRecord>, FetchError>)
    ensures r.Success? <==> forall i :: 0 <= i < |results| ==> ParsesToTime(results[i].date)
    ensures r.Failure? ==> r.error == InvalidTimeValue
    ensures r.Success? ==>
      |r.value| == |results| &&
      forall i :: 0 <= i < |results| ==> Success(r.value[i]) == TransformDay(city, results[i])
  {
    if forall i :: 0 <= i < |results| ==> TransformDay(city, results[i]).Success? then
      Success(seq(|results|, i requires 0 <= i < |results| => TransformDay(city, results[i]).value))
    else
      Failure(InvalidTimeValue)
  }


  /**
   * `getHistoricData` with `fetch` as a parameter: the request URL, the
   * message choice on a non-ok status, and the transform of an ok body.
   */
  function GetHistoricData(cityId: int, startDate: Date, endDate: Date, fetch: string -> Response)
    : (r: Result<seq<DayRecord>, FetchError>)
    requires startDate.Valid() && endDate.Valid()
    ensures var response := fetch(RequestUrl(GetCityName(cityId), FormatDate(startDate), FormatDate(endDate)));
      && (!response.Ok() ==>
            r == Failure(HttpError(ErrorMessage(response.status, response.statusText, response.body))))
      && (response.Ok() && response.body.None? ==> r == Failure(UnreadableBody))
      && (response.Ok() && response.body.Some? && response.body.value.results.None? ==> r == Success([]))
      && (response.Ok() && response.body.Some? && response.body.value.results.Some? ==>
            r == TransformResults(response.body.value.city, response.body.value.results.value))
  {
    var url := RequestUrl(GetCityName(cityId), FormatDate(startDate), FormatDate(endDate));
    var response := fetch(url);
    if !response.Ok() then
      Failure(HttpError(ErrorMessage(response.status, response.statusText, response.body)))
    else
      match response.body
      case None => Failure(UnreadableBody)
      case Some(data) =>
        match data.results
        case None => Success([])
        case Some(results) => TransformResults(data.city, results)
  }
}
