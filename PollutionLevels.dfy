/**
 * The pollution severity scale (`src/utils/pollutionLevels.js`): six levels
 * from Good to Hazardous, the lookup of a level by numeric score and by name,
 * and the colour range and thresholds handed to the calendar heat map.
 */
module PollutionLevels {
  import opened Wrappers
  import opened Text

  /** One entry of `POLLUTION_LEVELS`; colour, classes and description are opaque data. */
  datatype Level = Level(
    value: int,
    name: string,
    color: string,
    textClass: string,
    bgClass: string,
    description: string)

  const Good := Level(1, "Good", "#3be72cff", "text-green-500", "bg-green-500",
    "Air quality is considered satisfactory, and air pollution poses little or no risk.")
  const Satisfactory := Level(2, "Satisfactory", "#83cb43ff", "text-green-400", "bg-green-400",
    "Air quality is acceptable for most people. However, sensitive people may experience minor respiratory symptoms.")
  const Poor := Level(3, "Poor", "#debc4aff", "text-yellow-500", "bg-yellow-500",
    "Members of sensitive groups may experience health effects. The general public is not likely to be affected.")
  const Moderate := Level(4, "Moderate", "#e97a25ff", "text-orange-500", "bg-orange-500",
    "Everyone may begin to experience health effects; members of sensitive groups may experience more serious health effects.")
  const Severe := Level(5, "Severe", "#cf1b1b", "text-red-500", "bg-red-500",
    "Health warnings of emergency conditions. The entire population is more likely to be affected.")
  const Hazardous := Level(6, "Hazardous", "#880000", "text-red-800", "bg-red-800",
    "Health alert: everyone may experience more serious health effects.")

  /** `Object.values(POLLUTION_LEVELS)`, in declaration order. */
  const Levels: seq<Level> := [Good, Satisfactory, Poor, Moderate, Severe, Hazardous]

  /** The level values are 1..6 in declaration order, and no two names agree even ignoring case. */
  lemma LevelTableWellFormed()
    ensures |Levels| == 6
    ensures forall i :: 0 <= i < |Levels| ==> Levels[i].value == i + 1
    ensures forall i, j :: 0 <= i < j < |Levels| ==> Lower(Levels[i].name) != Lower(Levels[j].name)
  {
    forall i, j | 0 <= i < j < |Levels|
      ensures Lower(Levels[i].name) != Lower(Levels[j].name)
    {
      var a, b := Levels[i].name, Levels[j].name;
      if |a| == |b| {
        assert LowerChar(a[0]) != LowerChar(b[0]);
        assert Lower(a)[0] != Lower(b)[0];
      }
    }
  }

  /** The smallest integer not below `v`. */
  function Ceil(v: real): (k: int)
    ensures (k - 1) as real < v <= k as real
  {
    -((-v).Floor)
  }

  function Clamp(k: int, lo: int, hi: int): (r: int)
    requires lo <= hi
    ensures lo <= r <= hi
    ensures lo <= k <= hi ==> r == k
  {
    if k < lo then lo else if k > hi then hi else k
  }

  /** Reference rank of a score: its ceiling, clamped into 1..6. */
  function RankOf(v: real): (k: int)
    ensures 1 <= k <= 6
  {
    Clamp(Ceil(v), 1, 6)
  }

  /** `getPollutionLevelInfo`: a chain of inclusive `<=` thresholds. */
  function GetPollutionLevelInfo(v: real): (r: Level)
    ensures r in Levels
    ensures r.value == 1 <==> v <= 1.0
    ensures r.value == 6 <==> v > 5.0
    ensures 1 < r.value < 6 ==> (r.value - 1) as real < v <= r.value as real
  {
    if v <= 1.0 then Good
    else if v <= 2.0 then Satisfactory
    else if v <= 3.0 then Poor
    else if v <= 4.0 then Moderate
    else if v <= 5.0 then Severe
    else Hazardous
  }

  /** The chain of thresholds agrees with the clamped ceiling of the score. */
  lemma InfoIsClampedCeiling(v: real)
    ensures GetPollutionLevelInfo(v) == Levels[RankOf(v) - 1]
    ensures GetPollutionLevelInfo(v).value == RankOf(v)
  {
    var k := Ceil(v);
    if k <= 1 {
    } else if k == 2 {
    } else if k == 3 {
    } else if k == 4 {
    } else if k == 5 {
    } else {
      assert v > 5.0;
    }
  }

  /** Every level is the answer for its own value: the boundaries are inclusive. */
  lemma InfoOfOwnValue(l: Level)
    requires l in Levels
    ensures GetPollutionLevelInfo(l.value as real) == l
  {
  }

  /** A higher score never yields a lower level. */
  lemma InfoMonotone(a: real, b: real)
    requires a <= b
    ensures GetPollutionLevelInfo(a).value <= GetPollutionLevelInfo(b).value
  {
    InfoIsClampedCeiling(a);
    InfoIsClampedCeiling(b);
    assert Ceil(a) <= Ceil(b);
  }

  /** `Object.values(...).find(level => lower(level.name) === lower(levelName))` over `levels`. */
  function FindByName(levels: seq<Level>, levelName: string): (r: Option<Level>)
    ensures r.Some? ==> r.value in levels && Lower(r.value.name) == Lower(levelName)
    ensures r.None? <==> forall l :: l in levels ==> Lower(l.name) != Lower(levelName)
    ensures r.Some? ==>
      exists i :: 0 <= i < |levels| && levels[i] == r.value &&
        (forall j :: 0 <= j < i ==> Lower(levels[j].name) != Lower(levelName))
  {
    if levels == [] then None
    else if Lower(levels[0].name) == Lower(levelName) then Some(levels[0])
    else FindByName(levels[1..], levelName)
  }

  /** `getPollutionLevelByName`: case-insensitive; None stands for `null`. */
  function GetPollutionLevelByName(levelName: string): (r: Option<Level>)
    ensures r.Some? ==> r.value in Levels && Lower(r.value.name) == Lower(levelName)
    ensures r.None? <==> forall l :: l in Levels ==> Lower(l.name) != Lower(levelName)
  {
    FindByName(Levels, levelName)
  }

  /** Looking a level up by its own name, in any letter case, finds that level. */
  lemma ByNameOfOwnName(l: Level, s: string)
    requires l in Levels && Lower(s) == Lower(l.name)
    ensures GetPollutionLevelByName(s) == Some(l)
  {
    LevelTableWellFormed();
    var r := GetPollutionLevelByName(s);
    assert r.Some?;
    var i :| 0 <= i < |Levels| && Levels[i] == l;
    var j :| 0 <= j < |Levels| && Levels[j] == r.value;
    assert Lower(Levels[i].name) == Lower(Levels[j].name);
  }

  /** The lookup sees only the lower-cased name. */
  lemma {:induction false} FindByNameIgnoresCase(levels: seq<Level>, s: string, t: string)
    requires Lower(s) == Lower(t)
    ensures FindByName(levels, s) == FindByName(levels, t)
  {
    if levels != [] {
      FindByNameIgnoresCase(levels[1..], s, t);
    }
  }

  /** "good", "GOOD" and "Good" all find the Good level. */
  lemma ByNameGoodAnyCase()
    ensures GetPollutionLevelByName("good") == Some(Good)
    ensures GetPollutionLevelByName("GOOD") == Some(Good)
    ensures GetPollutionLevelByName("Good") == Some(Good)
  {
    SameLowerGood("good");
    SameLowerGood("GOOD");
    SameLowerGood(Good.name);
    ByNameOfOwnName(Good, "good");
    ByNameOfOwnName(Good, "GOOD");
    ByNameOfOwnName(Good, "Good");
  }

  /** A label that names no level gives `null`. */
  lemma ByNameUnknownLabel()
    ensures GetPollutionLevelByName("unknown-label") == None
  {
    var s := "unknown-label";
    forall i | 0 <= i < |Levels| ensures Lower(Levels[i].name) != Lower(s) {
      assert Levels[i].name[0] in "GSPMH";
      LowerDiffersAtFirst(Levels[i].name, s);
    }
    ByNameMiss(s);
  }

  lemma ByNameMiss(s: string)
    requires forall i :: 0 <= i < |Levels| ==> Lower(Levels[i].name) != Lower(s)
    ensures GetPollutionLevelByName(s) == None
  {
  }

  lemma LowerDiffersAtFirst(s: string, t: string)
    requires |s| > 0 && |t| > 0 && LowerChar(s[0]) != LowerChar(t[0])
    ensures Lower(s) != Lower(t)
  {
    assert Lower(s)[0] != Lower(t)[0];
  }

  /** Every four-letter spelling of "good" in any mix of cases lowers to "good". */
  lemma SameLowerGood(s: string)
    requires |s| == 4 && s[0] in "gG" && s[1] in "oO" && s[2] in "oO" && s[3] in "dD"
    ensures Lower(s) == "good"
  {
    var a := Lower(s);
    assert a[0] == 'g' && a[1] == 'o' && a[2] == 'o' && a[3] == 'd';
  }

  /** `getPollutionColorRange`: the no-data grey, then one colour per level by value. */
  function GetPollutionColorRange(): (r: seq<string>)
    ensures |r| == 7 && r[0] == "#e5e7eb"
    ensures forall l :: l in Levels ==> r[l.value] == l.color
  {
    ["#e5e7eb", Good.color, Satisfactory.color, Poor.color, Moderate.color, Severe.color, Hazardous.color]
  }

  /** `getPollutionThresholds`. */
  function GetPollutionThresholds(): (r: seq<int>)
    ensures |r| == |GetPollutionColorRange()|
    ensures forall i :: 0 <= i < |r| ==> r[i] == i + 1
    ensures forall i, j :: 0 <= i < j < |r| ==> r[i] < r[j]
  {
    [1, 2, 3, 4, 5, 6, 7]
  }

  /** `getPollutionLevelClass`: the text class of the level a score falls in. */
  function GetPollutionLevelClass(v: real): (r: string)
    ensures r == Levels[RankOf(v) - 1].textClass
    ensures v <= 1.0 ==> r == "text-green-500"
    ensures v > 5.0 ==> r == "text-red-800"
  {
    InfoIsClampedCeiling(v);
    GetPollutionLevelInfo(v).textClass
  }
}
