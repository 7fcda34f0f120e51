/**
  The level classifier of the screen-time tracker: a day's total minutes,
  compared against ratios of the daily limit, falls into one of four ordered
  tiers, efsane (legendary) < iyi (good) < sinirda (borderline) < asti (exceeded).

  The source keeps each ratio as a floating-point number; here a ratio is an
  integer number of hundredths (0.65 is 65, 999 is 99900) and the comparison
  `total <= limit * ratio` is carried out exactly as `total * 100 <= limit * pct`.
*/
module Levels {

  datatype LevelKey = Efsane | Iyi | Sinirda | Asti

  /** Position of a tier in the order efsane < iyi < sinirda < asti. */
  function Rank(k: LevelKey): (n: nat)
    ensures n < 4
  {
    match k
    case Efsane => 0
    case Iyi => 1
    case Sinirda => 2
    case Asti => 3
  }

  /** The display name the classifier attaches to each tier. */
  function NameOf(k: LevelKey): string
  {
    match k
    case Efsane => "Efsane"
    case Iyi => "İyi"
    case Sinirda => "Sınırda"
    case Asti => "Aştı"
  }

  /** The four tier names differ, so a record's frozen name identifies its tier. */
  lemma NamesDistinct(a: LevelKey, b: LevelKey)
    ensures NameOf(a) == NameOf(b) ==> a == b
  {
  }

  /** One entry of the level scheme: its ratio in hundredths and its display data. */
  datatype LevelStyle = LevelStyle(pct: int, emoji: string, color: string)

  datatype LevelScheme = LevelScheme(efsane: LevelStyle, iyi: LevelStyle, sinirda: LevelStyle, asti: LevelStyle)
  {
    function StyleOf(k: LevelKey): LevelStyle
    {
      match k
      case Efsane => efsane
      case Iyi => iyi
      case Sinirda => sinirda
      case Asti => asti
    }
  }

  datatype Settings = Settings(name: string, limit: int, step: int, weeklyStarTarget: int, levels: LevelScheme)

  /** The settings the tracker starts with when nothing is stored. */
  const DefaultSettings: Settings :=
    Settings("Çocuk", 120, 5, 7,
      LevelScheme(
        LevelStyle(65, "🤩", "from-purple-600 to-indigo-700"),
        LevelStyle(85, "🙂", "from-green-500 to-emerald-600"),
        LevelStyle(100, "😐", "from-yellow-500 to-orange-500"),
        LevelStyle(99900, "😵", "from-red-500 to-rose-600")))

  /** What the classifier returns: the tier, its name and its scheme entry. */
  datatype LevelVerdict = LevelVerdict(key: LevelKey, name: string, style: LevelStyle)

  /**
    The three cut-offs of a scheme resolved against the limit, in hundredths of
    a minute. The catch-all tier asti has no cut-off: its ratio is never read.
  */
  function Thresholds(s: Settings): (ts: seq<int>)
    ensures |ts| == 3
  {
    [s.limit * s.levels.efsane.pct, s.limit * s.levels.iyi.pct, s.limit * s.levels.sinirda.pct]
  }

  /**
    Reference scan: the index of the first cut-off that is at least x, or |ts|
    when x exceeds every cut-off.
  */
  function FirstAtLeast(ts: seq<int>, x: int): (i: nat)
    ensures i <= |ts|
    ensures forall j :: 0 <= j < i ==> ts[j] < x
    ensures i < |ts| ==> x <= ts[i]
  {
    if ts == [] then 0
    else if x <= ts[0] then 0
    else 1 + FirstAtLeast(ts[1..], x)
  }

  /**
    The classifier as the source writes it: a chain of inclusive comparisons,
    first efsane, then iyi, then sinirda, and asti for everything above.
    Its tier is the first one whose resolved cut-off is at least the total.
  */
  function GetLevel(total: int, s: Settings): (r: LevelVerdict)
    ensures Rank(r.key) == FirstAtLeast(Thresholds(s), total * 100)
    ensures r.name == NameOf(r.key) && r.style == s.levels.StyleOf(r.key)
  {
    var l := s.levels;
    var ts, x := Thresholds(s), total * 100;
    assert FirstAtLeast(ts[1..], x) == if x <= ts[1] then 0 else 1 + FirstAtLeast(ts[2..], x);
    assert FirstAtLeast(ts[2..], x) == if x <= ts[2] then 0 else 1 + FirstAtLeast(ts[3..], x);
    if total * 100 <= s.limit * l.efsane.pct then LevelVerdict(Efsane, NameOf(Efsane), l.efsane)
    else if total * 100 <= s.limit * l.iyi.pct then LevelVerdict(Iyi, NameOf(Iyi), l.iyi)
    else if total * 100 <= s.limit * l.sinirda.pct then LevelVerdict(Sinirda, NameOf(Sinirda), l.sinirda)
    else LevelVerdict(Asti, NameOf(Asti), l.asti)
  }

  /** The cut-offs grow with the tiers. */
  predicate Ascending(s: Settings)
  {
    var ts := Thresholds(s);
    ts[0] < ts[1] < ts[2]
  }

  /**
    With ascending cut-offs a total lands in tier i exactly when it is above the
    cut-off of tier i - 1 and at most the cut-off of tier i: a total equal to a
    cut-off stays in the lower tier, and no total falls between two tiers.
  */
  lemma TierBracket(total: int, s: Settings, k: LevelKey)
    requires Ascending(s)
    ensures GetLevel(total, s).key == k <==>
      (Rank(k) == 0 || Thresholds(s)[Rank(k) - 1] < total * 100) &&
      (Rank(k) == 3 || total * 100 <= Thresholds(s)[Rank(k)])
  {
  }

  /** Classification never moves to a better tier as the total grows. */
  lemma Monotone(a: int, b: int, s: Settings)
    requires a <= b
    ensures Rank(GetLevel(a, s).key) <= Rank(GetLevel(b, s).key)
  {
  }

  /** A day with no usage is always legendary when the limit and ratio are not negative. */
  lemma ZeroIsEfsane(s: Settings)
    requires s.limit >= 0 && s.levels.efsane.pct >= 0
    ensures GetLevel(0, s).key == Efsane
  {
  }

  /**
    The default settings are well formed: positive limit, step and weekly
    target, and cut-offs of 78, 102 and 120 minutes that ascend.
  */
  lemma DefaultsWellFormed()
    ensures DefaultSettings.limit > 0 && DefaultSettings.step > 0 && DefaultSettings.weeklyStarTarget > 0
    ensures Thresholds(DefaultSettings) == [78 * 100, 102 * 100, 120 * 100]
    ensures Ascending(DefaultSettings)
  {
  }

  /** The default limit of 120 with ratios 0.65, 0.85 and 1.0: cut-offs 78, 102, 120. */
  lemma DefaultTiers()
    ensures GetLevel(78, DefaultSettings).key == Efsane
    ensures GetLevel(79, DefaultSettings).key == Iyi
    ensures GetLevel(102, DefaultSettings).key == Iyi
    ensures GetLevel(103, DefaultSettings).key == Sinirda
    ensures GetLevel(120, DefaultSettings).key == Sinirda
    ensures GetLevel(121, DefaultSettings).key == Asti
  {
  }
}
