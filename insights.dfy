/** The rule tables over a usage table: insights from the category ratios
    and the total time, and recommendations from the per-category minutes.

    Minutes are exact reals, so each rule is stated as the source writes it
    (a ratio against a decimal threshold) and then proved equivalent to a
    comparison of whole seconds. */
module Insights {
  import opened Registry
  import opened Aggregation

  datatype InsightKind = Warning | Info | Health

  /** The insights, in the order the rules are applied. Message texts are not modelled. */
  datatype Insight =
    | LowProductivity      // time-blocking advice
    | HighProductivity     // take breaks to avoid burnout
    | HighEntertainment    // set leisure time windows
    | BatchCommunication   // batch communication tasks
    | TwentyTwentyTwenty   // the 20-20-20 eye rule

  function Kind(i: Insight): InsightKind
  {
    match i
    case LowProductivity => Warning
    case HighProductivity => Info
    case HighEntertainment => Warning
    case BatchCommunication => Info
    case TwentyTwentyTwenty => Health
  }

  /** Position of an insight's rule in the rule table. */
  function Rank(i: Insight): nat
  {
    match i
    case LowProductivity => 0
    case HighProductivity => 1
    case HighEntertainment => 2
    case BatchCommunication => 3
    case TwentyTwentyTwenty => 4
  }

  /** The rule table: the insights for the three ratios and the total minutes. */
  function InsightRules(productivity: real, entertainment: real, communication: real, total: real): seq<Insight>
  {
    (if productivity < 0.3 then [LowProductivity]
     else if productivity > 0.7 then [HighProductivity]
     else [])
    + (if entertainment > 0.4 then [HighEntertainment] else [])
    + (if communication > 0.3 then [BatchCommunication] else [])
    + (if total > 120.0 then [TwentyTwentyTwenty] else [])
  }

  /** The insights for a usage table, and its per-category minutes. The
      ratios are taken only when some time was recorded. */
  function AnalyzeUsagePatterns(rs: seq<UsageRecord>): (seq<Insight>, map<string, real>)
  {
    var usage := CategoryUsage(rs);
    var total := TotalMinutes(rs);
    if total > 0.0 then
      var productivity := Minutes(usage, "Productivity") / total;
      var entertainment := (Minutes(usage, "Entertainment") + Minutes(usage, "Social Media")) / total;
      var communication := Minutes(usage, "Communication") / total;
      (InsightRules(productivity, entertainment, communication, total), usage)
    else
      ([], usage)
  }

  /** With no time recorded there are no insights. */
  lemma NoInsightsWithoutTime(rs: seq<UsageRecord>)
    requires AllExact(rs) && TotalSeconds(rs) == 0
    ensures AnalyzeUsagePatterns(rs).0 == []
  {
    TotalMinutesExact(rs);
  }

  /** Insights come in rule order, each at most once, and the low- and
      high-productivity insights never appear together. */
  lemma InsightsOrdered(rs: seq<UsageRecord>)
    ensures var ins := AnalyzeUsagePatterns(rs).0;
      (forall i, j :: 0 <= i < j < |ins| ==> Rank(ins[i]) < Rank(ins[j])) &&
      !(LowProductivity in ins && HighProductivity in ins)
  {
    var total := TotalMinutes(rs);
    if total > 0.0 {
      var usage := CategoryUsage(rs);
      var p := Minutes(usage, "Productivity") / total;
      var e := (Minutes(usage, "Entertainment") + Minutes(usage, "Social Media")) / total;
      var c := Minutes(usage, "Communication") / total;
      assert AnalyzeUsagePatterns(rs).0 == InsightRules(p, e, c, total);
      InsightRulesOrdered(p, e, c, total);
    } else {
      assert AnalyzeUsagePatterns(rs).0 == [];
    }
  }

  lemma InsightRulesOrdered(productivity: real, entertainment: real, communication: real, total: real)
    ensures var ins := InsightRules(productivity, entertainment, communication, total);
      (forall i, j :: 0 <= i < j < |ins| ==> Rank(ins[i]) < Rank(ins[j])) &&
      !(LowProductivity in ins && HighProductivity in ins)
  {
  }

  // ---------------------------------------------------------------------------
  // Ratios as comparisons of whole seconds

  lemma RatioBelow(part: real, total: real, num: int, den: int, partSec: int, totalSec: int)
    requires total > 0.0 && den > 0
    requires part * 60.0 == partSec as real && total * 60.0 == totalSec as real
    ensures part / total < num as real / den as real <==> den * partSec < num * totalSec
  {
    var q := part / total;
    assert part == q * total;
    assert q < num as real / den as real <==> q * den as real < num as real;
    assert q * den as real < num as real <==> q * total * den as real < num as real * total;
    assert (den * partSec) as real == den as real * part * 60.0;
    assert (num * totalSec) as real == num as real * total * 60.0;
  }

  lemma RatioAbove(part: real, total: real, num: int, den: int, partSec: int, totalSec: int)
    requires total > 0.0 && den > 0
    requires part * 60.0 == partSec as real && total * 60.0 == totalSec as real
    ensures part / total > num as real / den as real <==> den * partSec > num * totalSec
  {
    var q := part / total;
    assert part == q * total;
    assert q > num as real / den as real <==> q * den as real > num as real;
    assert q * den as real > num as real <==> q * total * den as real > num as real * total;
    assert (den * partSec) as real == den as real * part * 60.0;
    assert (num * totalSec) as real == num as real * total * 60.0;
  }

  /** Each insight fires exactly on its strict threshold, stated on whole
      seconds: productivity below 30% or (otherwise) above 70%, entertainment
      above 40% (the "Social Media" share is always zero), communication above
      30%, and more than 120 minutes in all. */
  lemma InsightThresholds(rs: seq<UsageRecord>)
    requires AllExact(rs) && TotalSeconds(rs) > 0
    ensures var ins := AnalyzeUsagePatterns(rs).0;
      var total := TotalSeconds(rs);
      && (LowProductivity in ins <==> 10 * CategorySeconds(rs, "Productivity") < 3 * total)
      && (HighProductivity in ins <==> 10 * CategorySeconds(rs, "Productivity") > 7 * total)
      && (HighEntertainment in ins <==> 10 * CategorySeconds(rs, "Entertainment") > 4 * total)
      && (BatchCommunication in ins <==> 10 * CategorySeconds(rs, "Communication") > 3 * total)
      && (TwentyTwentyTwenty in ins <==> total > 120 * 60)
  {
    TotalMinutesExact(rs);
    NoSocialMedia(rs);
    var usage := CategoryUsage(rs);
    var total := TotalMinutes(rs);
    var p := Minutes(usage, "Productivity");
    var e := Minutes(usage, "Entertainment") + Minutes(usage, "Social Media");
    var c := Minutes(usage, "Communication");
    assert e == Minutes(usage, "Entertainment");
    assert total > 0.0;
    assert AnalyzeUsagePatterns(rs).0 == InsightRules(p / total, e / total, c / total, total);
    InsightRulesSpec(p / total, e / total, c / total, total);
    ShareBelow(rs, "Productivity", 0.3, 3);
    ShareAbove(rs, "Productivity", 0.7, 7);
    ShareAbove(rs, "Entertainment", 0.4, 4);
    ShareAbove(rs, "Communication", 0.3, 3);
  }

  /** A category's share of the minutes is below `num` tenths exactly when
      its share of the seconds is. */
  lemma ShareBelow(rs: seq<UsageRecord>, c: string, threshold: real, num: int)
    requires AllExact(rs) && TotalMinutes(rs) > 0.0 && threshold * 10.0 == num as real
    ensures Minutes(CategoryUsage(rs), c) / TotalMinutes(rs) < threshold <==>
            10 * CategorySeconds(rs, c) < num * TotalSeconds(rs)
  {
    TotalMinutesExact(rs);
    CategoryUsageExact(rs);
    RatioBelow(Minutes(CategoryUsage(rs), c), TotalMinutes(rs), num, 10, CategorySeconds(rs, c), TotalSeconds(rs));
  }

  /** A category's share of the minutes is above `num` tenths exactly when
      its share of the seconds is. */
  lemma ShareAbove(rs: seq<UsageRecord>, c: string, threshold: real, num: int)
    requires AllExact(rs) && TotalMinutes(rs) > 0.0 && threshold * 10.0 == num as real
    ensures Minutes(CategoryUsage(rs), c) / TotalMinutes(rs) > threshold <==>
            10 * CategorySeconds(rs, c) > num * TotalSeconds(rs)
  {
    TotalMinutesExact(rs);
    CategoryUsageExact(rs);
    RatioAbove(Minutes(CategoryUsage(rs), c), TotalMinutes(rs), num, 10, CategorySeconds(rs, c), TotalSeconds(rs));
  }

  /** Which insights the rule table yields, rule by rule. */
  lemma InsightRulesSpec(productivity: real, entertainment: real, communication: real, total: real)
    ensures var ins := InsightRules(productivity, entertainment, communication, total);
      && (LowProductivity in ins <==> productivity < 0.3)
      && (HighProductivity in ins <==> productivity > 0.7)
      && (HighEntertainment in ins <==> entertainment > 0.4)
      && (BatchCommunication in ins <==> communication > 0.3)
      && (TwentyTwentyTwenty in ins <==> total > 120.0)
  {
  }

  // ---------------------------------------------------------------------------
  // Recommendations

  /** The recommendations. Message texts are not modelled. */
  datatype Recommendation =
    | Pomodoro                // regular break intervals
    | FocusHours              // specific focus hours for deep work
    | AppTimers               // app timers for balanced screen time
    | EntertainmentSlots      // scheduled entertainment slots
    | MessageWindows          // fixed times for e-mail and messages
    | DoNotDisturb            // do-not-disturb during focus periods
    | BlockDistractingSites   // browser extensions against distraction
    | TabManagement           // browser tab management
    | MindfulComputing        // close unnecessary applications
    | BlueLightFilter         // blue light filter in the evening
    | SessionGoals            // goals for each work session
    | MicroBreaks             // two-minute breaks every 30 minutes

  /** The general recommendations appended after the specific ones. */
  const Defaults: seq<Recommendation> := [MindfulComputing, BlueLightFilter, SessionGoals, MicroBreaks]

  /** How many recommendations are shown at most. */
  const MaxRecommendations: nat := 5

  /** Work-life balance: break intervals above 70% productivity, otherwise
      focus hours below 30%; nothing when no Productivity row exists. */
  function ProductivityAdvice(usage: map<string, real>, total: real): seq<Recommendation>
  {
    if "Productivity" in usage then
      (if usage["Productivity"] > total * 0.7 then [Pomodoro]
       else if usage["Productivity"] < total * 0.3 then [FocusHours]
       else [])
    else []
  }

  /** Digital wellness: entertainment above 40%. */
  function EntertainmentAdvice(usage: map<string, real>, total: real): seq<Recommendation>
  {
    if "Entertainment" in usage && usage["Entertainment"] > total * 0.4
    then [AppTimers, EntertainmentSlots] else []
  }

  /** Communication above 30%. */
  function CommunicationAdvice(usage: map<string, real>, total: real): seq<Recommendation>
  {
    if "Communication" in usage && usage["Communication"] > total * 0.3
    then [MessageWindows, DoNotDisturb] else []
  }

  /** Browsers above 50%. */
  function BrowserAdvice(usage: map<string, real>, total: real): seq<Recommendation>
  {
    if "Browsers" in usage && usage["Browsers"] > total * 0.5
    then [BlockDistractingSites, TabManagement] else []
  }

  /** The category-specific recommendations, in rule order. */
  function Specific(usage: map<string, real>, total: real): seq<Recommendation>
  {
    ProductivityAdvice(usage, total) + EntertainmentAdvice(usage, total)
    + CommunicationAdvice(usage, total) + BrowserAdvice(usage, total)
  }

  /** The specific recommendations followed by the general ones, cut to five. */
  function Combine(specific: seq<Recommendation>): seq<Recommendation>
  {
    var all := specific + Defaults;
    all[..if |all| < MaxRecommendations then |all| else MaxRecommendations]
  }

  /** The recommendations for a usage table and the total minutes it is
      compared against. */
  function GenerateRecommendations(rs: seq<UsageRecord>, total: real): seq<Recommendation>
  {
    Combine(Specific(CategoryUsage(rs), total))
  }

  /** The list keeps the specific recommendations first, then the general
      ones; it has four entries when no rule fires and five otherwise, and
      nothing specific is lost when at most five rules' worth fired. */
  lemma CombineShape(specific: seq<Recommendation>)
    ensures var r := Combine(specific);
      && |r| == (if specific == [] then 4 else 5)
      && (forall i :: 0 <= i < |r| && i < |specific| ==> r[i] == specific[i])
      && (forall i :: 0 <= i < |r| && |specific| <= i ==> r[i] == Defaults[i - |specific|])
      && (forall x :: x in r ==> x in specific || x in Defaults)
      && (|specific| <= MaxRecommendations ==> forall x :: x in specific ==> x in r)
  {
    CombineFrom(specific);
    if |specific| <= MaxRecommendations {
      CombineKeeps(specific);
    }
  }

  /** Everything shown is specific or general. */
  lemma CombineFrom(specific: seq<Recommendation>)
    ensures forall x :: x in Combine(specific) ==> x in specific || x in Defaults
  {
    var r := Combine(specific);
    var all := specific + Defaults;
    forall x | x in r ensures x in specific || x in Defaults {
      var i :| 0 <= i < |r| && r[i] == x;
      assert r[i] == all[i];
    }
  }

  /** Nothing specific is cut when at most five were produced. */
  lemma CombineKeeps(specific: seq<Recommendation>)
    requires |specific| <= MaxRecommendations
    ensures forall x :: x in specific ==> x in Combine(specific)
  {
    var r := Combine(specific);
    forall x | x in specific ensures x in r {
      var i :| 0 <= i < |specific| && specific[i] == x;
      assert r[i] == x;
    }
  }

  /** Without any Productivity row, neither productivity recommendation
      is made, whatever the total. */
  lemma ProductivityGating(rs: seq<UsageRecord>, total: real)
    requires !HasCategory(rs, "Productivity")
    ensures Pomodoro !in GenerateRecommendations(rs, total)
    ensures FocusHours !in GenerateRecommendations(rs, total)
  {
    CategoryUsageKeys(rs);
    var sp := Specific(CategoryUsage(rs), total);
    SpecificSources(CategoryUsage(rs), total);
    CombineFrom(sp);
  }

  /** The category sums of a usage table are non-negative and add up to
      its total, so no three of them exceed it. */
  lemma CategoryMinutesBounded(rs: seq<UsageRecord>)
    requires AllExact(rs)
    ensures forall c :: 0.0 <= Minutes(CategoryUsage(rs), c)
    ensures var u := CategoryUsage(rs);
      Minutes(u, "Entertainment") + Minutes(u, "Communication") + Minutes(u, "Browsers")
      <= TotalMinutes(rs)
  {
    CategoryUsageExact(rs);
    CategoryUsageTotal(rs);
    SumOverCategories(CategoryUsage(rs));
  }

  /** For a real usage table the specific rules never yield more than five
      entries: the entertainment, communication and browser rules need
      more than 40%, 30% and 50% of the time and cannot all fire. */
  lemma SpecificFits(rs: seq<UsageRecord>)
    requires AllExact(rs)
    ensures |Specific(CategoryUsage(rs), TotalMinutes(rs))| <= MaxRecommendations
  {
    CategoryMinutesBounded(rs);
  }

  /** The thresholds of the recommendation rules, compared on whole seconds. */
  lemma ShareOfTotal(m: real, t: real, mSec: int, tSec: int)
    requires m * 60.0 == mSec as real && t * 60.0 == tSec as real
    ensures m > t * 0.7 <==> 10 * mSec > 7 * tSec
    ensures m < t * 0.3 <==> 10 * mSec < 3 * tSec
    ensures m > t * 0.4 <==> 10 * mSec > 4 * tSec
    ensures m > t * 0.3 <==> 10 * mSec > 3 * tSec
    ensures m > t * 0.5 <==> 10 * mSec > 5 * tSec
  {
  }

  /** The productivity rule on whole seconds. */
  lemma ProductivityAdviceExact(rs: seq<UsageRecord>)
    requires AllExact(rs)
    ensures var a := ProductivityAdvice(CategoryUsage(rs), TotalMinutes(rs));
      var p := CategorySeconds(rs, "Productivity");
      && (Pomodoro in a <==> HasCategory(rs, "Productivity") && 10 * p > 7 * TotalSeconds(rs))
      && (FocusHours in a <==> HasCategory(rs, "Productivity") && 10 * p < 3 * TotalSeconds(rs))
  {
    TotalMinutesExact(rs);
    CategoryUsageExact(rs);
    CategoryUsageKeys(rs);
    var usage := CategoryUsage(rs);
    ShareOfTotal(Minutes(usage, "Productivity"), TotalMinutes(rs),
                 CategorySeconds(rs, "Productivity"), TotalSeconds(rs));
  }

  /** A two-entry rule `advice` on category `c` fires exactly when the
      category has more than `num` tenths of the seconds. */
  predicate PairFires(advice: seq<Recommendation>, rs: seq<UsageRecord>, c: string, num: int)
  {
    (|advice| == 2 || advice == []) &&
    (advice != [] <==> 10 * CategorySeconds(rs, c) > num * TotalSeconds(rs))
  }

  lemma EntertainmentAdviceExact(rs: seq<UsageRecord>)
    requires AllExact(rs)
    ensures PairFires(EntertainmentAdvice(CategoryUsage(rs), TotalMinutes(rs)), rs, "Entertainment", 4)
  {
    TotalMinutesExact(rs);
    CategoryUsageExact(rs);
    var usage := CategoryUsage(rs);
    ShareOfTotal(Minutes(usage, "Entertainment"), TotalMinutes(rs),
                 CategorySeconds(rs, "Entertainment"), TotalSeconds(rs));
  }

  lemma CommunicationAdviceExact(rs: seq<UsageRecord>)
    requires AllExact(rs)
    ensures PairFires(CommunicationAdvice(CategoryUsage(rs), TotalMinutes(rs)), rs, "Communication", 3)
  {
    TotalMinutesExact(rs);
    CategoryUsageExact(rs);
    var usage := CategoryUsage(rs);
    ShareOfTotal(Minutes(usage, "Communication"), TotalMinutes(rs),
                 CategorySeconds(rs, "Communication"), TotalSeconds(rs));
  }

  lemma BrowserAdviceExact(rs: seq<UsageRecord>)
    requires AllExact(rs)
    ensures PairFires(BrowserAdvice(CategoryUsage(rs), TotalMinutes(rs)), rs, "Browsers", 5)
  {
    TotalMinutesExact(rs);
    CategoryUsageExact(rs);
    var usage := CategoryUsage(rs);
    ShareOfTotal(Minutes(usage, "Browsers"), TotalMinutes(rs),
                 CategorySeconds(rs, "Browsers"), TotalSeconds(rs));
  }

  /** A recommendation outside the general pool is shown exactly when the
      rules produced it, provided nothing specific was cut. */
  lemma CombineMembers(specific: seq<Recommendation>, x: Recommendation)
    requires |specific| <= MaxRecommendations
    requires x !in Defaults
    ensures x in Combine(specific) <==> x in specific
  {
    CombineFrom(specific);
    CombineKeeps(specific);
  }

  /** Each specific recommendation comes from its own rule only. */
  lemma SpecificSources(usage: map<string, real>, total: real)
    ensures var sp := Specific(usage, total);
      && (Pomodoro in sp <==> Pomodoro in ProductivityAdvice(usage, total))
      && (FocusHours in sp <==> FocusHours in ProductivityAdvice(usage, total))
      && (AppTimers in sp <==> EntertainmentAdvice(usage, total) != [])
      && (EntertainmentSlots in sp <==> EntertainmentAdvice(usage, total) != [])
      && (MessageWindows in sp <==> CommunicationAdvice(usage, total) != [])
      && (DoNotDisturb in sp <==> CommunicationAdvice(usage, total) != [])
      && (BlockDistractingSites in sp <==> BrowserAdvice(usage, total) != [])
      && (TabManagement in sp <==> BrowserAdvice(usage, total) != [])
  {
    var pa, ea := ProductivityAdvice(usage, total), EntertainmentAdvice(usage, total);
    var ca, ba := CommunicationAdvice(usage, total), BrowserAdvice(usage, total);
    assert pa == [] || pa == [Pomodoro] || pa == [FocusHours];
    assert ea == [] || ea == [AppTimers, EntertainmentSlots];
    assert ca == [] || ca == [MessageWindows, DoNotDisturb];
    assert ba == [] || ba == [BlockDistractingSites, TabManagement];
    SourcesOf(pa, ea, ca, ba);
  }

  lemma SourcesOf(pa: seq<Recommendation>, ea: seq<Recommendation>,
                  ca: seq<Recommendation>, ba: seq<Recommendation>)
    requires pa == [] || pa == [Pomodoro] || pa == [FocusHours]
    requires ea == [] || ea == [AppTimers, EntertainmentSlots]
    requires ca == [] || ca == [MessageWindows, DoNotDisturb]
    requires ba == [] || ba == [BlockDistractingSites, TabManagement]
    ensures var sp := pa + ea + ca + ba;
      && (Pomodoro in sp <==> Pomodoro in pa)
      && (FocusHours in sp <==> FocusHours in pa)
      && (AppTimers in sp <==> ea != [])
      && (EntertainmentSlots in sp <==> ea != [])
      && (MessageWindows in sp <==> ca != [])
      && (DoNotDisturb in sp <==> ca != [])
      && (BlockDistractingSites in sp <==> ba != [])
      && (TabManagement in sp <==> ba != [])
  {
    forall x ensures x in pa + ea + ca + ba <==> x in pa || x in ea || x in ca || x in ba {
    }
  }

  /** The recommendations for a real usage table are its specific ones
      (all of them) followed by general ones. */
  lemma ShownSpecific(rs: seq<UsageRecord>, x: Recommendation)
    requires AllExact(rs) && x !in Defaults
    ensures x in GenerateRecommendations(rs, TotalMinutes(rs)) <==>
            x in Specific(CategoryUsage(rs), TotalMinutes(rs))
  {
    SpecificFits(rs);
    CombineMembers(Specific(CategoryUsage(rs), TotalMinutes(rs)), x);
  }

  lemma ProductivityRecommendations(rs: seq<UsageRecord>)
    requires AllExact(rs)
    ensures var r := GenerateRecommendations(rs, TotalMinutes(rs));
      var p := CategorySeconds(rs, "Productivity");
      && (Pomodoro in r <==> HasCategory(rs, "Productivity") && 10 * p > 7 * TotalSeconds(rs))
      && (FocusHours in r <==> HasCategory(rs, "Productivity") && 10 * p < 3 * TotalSeconds(rs))
  {
    SpecificSources(CategoryUsage(rs), TotalMinutes(rs));
    ProductivityAdviceExact(rs);
    ShownSpecific(rs, Pomodoro);
    ShownSpecific(rs, FocusHours);
  }

  lemma EntertainmentRecommendations(rs: seq<UsageRecord>)
    requires AllExact(rs)
    ensures var r := GenerateRecommendations(rs, TotalMinutes(rs));
      var fires := 10 * CategorySeconds(rs, "Entertainment") > 4 * TotalSeconds(rs);
      (AppTimers in r <==> fires) && (EntertainmentSlots in r <==> fires)
  {
    SpecificSources(CategoryUsage(rs), TotalMinutes(rs));
    EntertainmentAdviceExact(rs);
    ShownSpecific(rs, AppTimers);
    ShownSpecific(rs, EntertainmentSlots);
  }

  lemma CommunicationRecommendations(rs: seq<UsageRecord>)
    requires AllExact(rs)
    ensures var r := GenerateRecommendations(rs, TotalMinutes(rs));
      var fires := 10 * CategorySeconds(rs, "Communication") > 3 * TotalSeconds(rs);
      (MessageWindows in r <==> fires) && (DoNotDisturb in r <==> fires)
  {
    SpecificSources(CategoryUsage(rs), TotalMinutes(rs));
    CommunicationAdviceExact(rs);
    ShownSpecific(rs, MessageWindows);
    ShownSpecific(rs, DoNotDisturb);
  }

  lemma BrowserRecommendations(rs: seq<UsageRecord>)
    requires AllExact(rs)
    ensures var r := GenerateRecommendations(rs, TotalMinutes(rs));
      var fires := 10 * CategorySeconds(rs, "Browsers") > 5 * TotalSeconds(rs);
      (BlockDistractingSites in r <==> fires) && (TabManagement in r <==> fires)
  {
    SpecificSources(CategoryUsage(rs), TotalMinutes(rs));
    BrowserAdviceExact(rs);
    ShownSpecific(rs, BlockDistractingSites);
    ShownSpecific(rs, TabManagement);
  }

  /** Each recommendation appears exactly when its rule fires, stated on
      whole seconds: the productivity rules only when some row is
      Productivity (above 70%, or else below 30%), entertainment above 40%,
      communication above 30%, browsers above 50%. None is cut by the limit
      of five. */
  lemma RecommendationThresholds(rs: seq<UsageRecord>)
    requires AllExact(rs)
    ensures var r := GenerateRecommendations(rs, TotalMinutes(rs));
      var total := TotalSeconds(rs);
      && (Pomodoro in r <==>
            HasCategory(rs, "Productivity") && 10 * CategorySeconds(rs, "Productivity") > 7 * total)
      && (FocusHours in r <==>
            HasCategory(rs, "Productivity") && 10 * CategorySeconds(rs, "Productivity") < 3 * total)
      && (AppTimers in r <==> 10 * CategorySeconds(rs, "Entertainment") > 4 * total)
      && (EntertainmentSlots in r <==> 10 * CategorySeconds(rs, "Entertainment") > 4 * total)
      && (MessageWindows in r <==> 10 * CategorySeconds(rs, "Communication") > 3 * total)
      && (DoNotDisturb in r <==> 10 * CategorySeconds(rs, "Communication") > 3 * total)
      && (BlockDistractingSites in r <==> 10 * CategorySeconds(rs, "Browsers") > 5 * total)
      && (TabManagement in r <==> 10 * CategorySeconds(rs, "Browsers") > 5 * total)
  {
    ProductivityRecommendations(rs);
    EntertainmentRecommendations(rs);
    CommunicationRecommendations(rs);
    BrowserRecommendations(rs);
  }

  /** The insights and the recommendations agree: high productivity goes
      with the break-interval advice, high entertainment with the app-timer
      advice, heavy communication with the message-window advice; the
      low-productivity insight goes with the focus-hours advice only when
      some row is Productivity. */
  lemma InsightsAgreeWithRecommendations(rs: seq<UsageRecord>)
    requires AllExact(rs)
    ensures var ins := AnalyzeUsagePatterns(rs).0;
      var r := GenerateRecommendations(rs, TotalMinutes(rs));
      && (HighProductivity in ins <==> Pomodoro in r)
      && (HighEntertainment in ins <==> AppTimers in r)
      && (BatchCommunication in ins <==> MessageWindows in r)
      && (FocusHours in r <==> LowProductivity in ins && HasCategory(rs, "Productivity"))
  {
    RecommendationThresholds(rs);
    if TotalSeconds(rs) > 0 {
      InsightThresholds(rs);
      if !HasCategory(rs, "Productivity") {
        CategorySecondsNone(rs, "Productivity");
      }
    } else {
      NoInsightsWithoutTime(rs);
      CategorySecondsBounded(rs, "Productivity");
      CategorySecondsBounded(rs, "Entertainment");
      CategorySecondsBounded(rs, "Communication");
    }
  }

  /** So a run with time recorded but no Productivity row gets the
      low-productivity insight and still no focus-hours recommendation. */
  lemma LowProductivityWithoutFocusHours(rs: seq<UsageRecord>)
    requires AllExact(rs) && TotalSeconds(rs) > 0
    requires !HasCategory(rs, "Productivity")
    ensures LowProductivity in AnalyzeUsagePatterns(rs).0
    ensures FocusHours !in GenerateRecommendations(rs, TotalMinutes(rs))
  {
    InsightThresholds(rs);
    CategorySecondsNone(rs, "Productivity");
    ProductivityGating(rs, TotalMinutes(rs));
  }
}
