# Screen-time tracker: a verified model of its core

This project models the logic of `main.py`, a small screen-time tracker, and proves
properties about that model. The tracker works in four steps:

1. It samples the running processes once a second. Each process row whose name is in
   the display-name table, and is not on the ignore list, adds one tick to that
   name's count.
2. When a count reaches 30 × 60 ticks, the tracker raises a break notification under
   the application's display name. A per-key cooldown of 10 seconds applies.
3. At the end of the run, the counts become a usage table sorted by minutes, largest
   first. Each row holds seconds, minutes = seconds / 60, and the display name.
4. The table is then analysed:
   - each application is categorised by a first-match substring scan over a fixed
     category table;
   - minutes are summed per category;
   - a rule table yields insights;
   - a second rule table yields at most five recommendations.

Modules:

- `Registry` (`registry.dfy`): the fixed tables, plus
  - the display-name lookup;
  - ASCII lower-casing and substring search;
  - `Categorize`;
  - the category-emoji lookup.
- `Sampler` (`sampler.dfy`): one tick as a specification function (`TickSpec`), and two
  classes: `Notifier`, which holds the cooldown map, and `Session`, which holds one
  run's count map. `Session.Tick` is proved equal to `TickSpec`.
- `Aggregation` (`aggregation.dfy`): the usage records, and the `Tabulate` method
  (counts to a sorted table). It also has totals and the per-category group-by
  (`CategoryUsage`).
- `Insights` (`insights.dfy`): `AnalyzeUsagePatterns`, `GenerateRecommendations`, and
  the threshold lemmas. The thresholds are stated on the source's ratios over exact
  minutes, and proved equivalent to comparisons of whole seconds.
- `Tracking` (`tracking.dfy`): a whole run. `TrackScreenTime` makes a fresh session,
  ticks it once per sample, then tabulates.
- `Scenario` (`scenario.dfy`): a worked run with one hour of Chrome and half an hour
  of VS Code.

Minutes are exact reals (`seconds as real / 60.0`), so no rounding is modelled. The
process list and the clock are parameters: a tick receives the names it sees and the
current time in whole seconds. Insights and recommendations are datatype
constructors; their message texts are not modelled.

Behaviour of `main.py` that the model keeps as written:

- A name that appears in two process rows of one sample gains two ticks, one per row
  (main.py:117-121).
- A notification is requested for every counted process row whose count is at or above
  the threshold, on every tick, not only on the first crossing. Only the cooldown suppresses repeats (main.py:123-124, 99-100).
- The cooldown map is module-wide state that outlives a run. In the model, the
  `Notifier` is passed to every run.
- Ties in the sorted table are left in no particular order (main.py:133).
- `main.py` computes no wellbeing score, eye-strain level or context-switch count (those
  are in `final code/main.py`), so none is modelled.

## Model

| member | source | states |
|---|---|---|
| Registry.CategoryNames | main.py:52-78 | The category table's names in declaration order: Productivity, Communication, Browsers, Entertainment, Creative. |
| Registry.DisplayName | main.py:80-82 | The table entry for a known executable name, otherwise the name itself. |
| Registry.DisplayNameFallback | main.py:80-82 | The name comes back unchanged exactly when it is not a key of the table. |
| Registry.LowerChar | main.py:86 | Upper-case ASCII letters map to their lower-case letter; every other character is unchanged. |
| Registry.Lower | main.py:86 | Same length as the input; every character is lower-cased. |
| Registry.ContainsAt | main.py:88 | The substring test holds exactly when the pattern occurs at some index of the name. |
| Registry.FirstMatchSpec | main.py:87-90 | The scan returns "Other" exactly when no category matches. Otherwise it returns the name of the first matching category. |
| Registry.CategorizeFirstMatch | main.py:84-90 | The category is "Other" exactly when no table category has a member occurring in the lower-cased name. Otherwise it is the first such category in declaration order. |
| Registry.CategorizeInRange | main.py:84-90 | Categorisation is total. It always yields one of the five table names or "Other", and never "Social Media". |
| Registry.CategorizeIgnoresCase | main.py:86-88 | Two names that differ only in letter case get the same category. |
| Registry.CategorizeOfLower | main.py:86 | Lower-casing a name first does not change its category. |
| Registry.FindCategory | main.py:94 | A found entry is a table entry with that name. When nothing is found, no entry has that name. |
| Registry.CategoryEmojiSpec | main.py:92-94 | A table category gets its own emoji. The fallback emoji is returned exactly for names outside the table, "Other" included. |
| Registry.EmojiOfCategory | main.py:92-94 | An executable's category gets the fallback emoji exactly when it is "Other". |
| Sampler.TrackedIsTableKey | main.py:120 | A name is counted exactly when it is a key of the display-name table: no ignored name is a key, so the ignore filter never removes a row. |
| Sampler.TickCounts | main.py:117-121 | After one tick, a tracked name that appears k times gains exactly k and every other count is unchanged. A name has a count exactly when it had one before, or is tracked and appears. |
| Sampler.TickLast | main.py:99-110 | After one tick, the keys notified in it map to `now`. Every other key keeps its old time, and no other key is added. |
| Sampler.TickAlertsFresh | main.py:99-100 | Every notification in a tick was allowed by the cooldown state from before the tick. No key is notified twice in one tick. |
| Sampler.TickAlertsFor | main.py:119-124 | Every notification's key is the display name of a tracked process of the tick whose count reached 1800 ticks. |
| Sampler.TickAlerts | main.py:117-124 | The three notification properties above, together. |
| Sampler.TickAlertsComplete | main.py:119-124 | A tracked process whose count reaches 1800 ticks during the tick, and whose key the cooldown allows, is notified. |
| Sampler.Notifier.constructor | main.py:95 | The cooldown map starts empty. |
| Sampler.Notifier.Send | main.py:96-110 | Sends exactly when the key is absent or strictly more than 10 seconds old. On sending, only that key is set to `now`; when suppressed, the map is unchanged. |
| Sampler.Session.constructor | main.py:113 | A run starts with no counts. |
| Sampler.Session.Tick | main.py:117-124 | The new counts, the new cooldown map and the notified keys are exactly those of `TickSpec`. Every count stays tracked and positive. |
| Aggregation.EntriesSpec | main.py:130-132 | Every row built from the counts holds its application's count as seconds, with minutes equal to seconds / 60 exactly. |
| Aggregation.InsertByMinutes | main.py:133 | Inserting into a table sorted by minutes (descending) keeps it sorted and adds exactly that row. |
| Aggregation.Tabulate | main.py:130-133 | The table is a permutation of the rows built from the counts: one row per application, each with its own seconds and exact minutes. It is sorted non-increasing by minutes; ties are in no particular order. |
| Aggregation.ListsEntries | main.py:130-132 | A sequence listing the rows of the counts holds each application once, with its own count. |
| Aggregation.TotalMinutesExact | main.py:280 | The total minutes are exactly the total seconds / 60. |
| Aggregation.CategoryUsageKeys | main.py:276-277 | The group-by has an entry for a category exactly when some row falls into it. |
| Aggregation.CategoryUsageExact | main.py:276-277 | The summed minutes of every category are exactly its seconds / 60. |
| Aggregation.CategorySecondsNone | main.py:276-277 | A category without rows has no seconds. |
| Aggregation.CategorySecondsBounded | main.py:276-277 | No category has more seconds than the whole table. |
| Aggregation.NoSocialMedia | main.py:276-277 | The group-by never has a "Social Media" entry. |
| Aggregation.CategoryUsageTotal | main.py:277-280 | The per-category sums over the six possible categories add up to the total minutes. |
| Insights.NoInsightsWithoutTime | main.py:282-320 | With no time recorded, there are no insights. |
| Insights.InsightsOrdered | main.py:289-318 | Insights come in rule order, each at most once. The low- and high-productivity insights never both appear. |
| Insights.InsightRulesSpec | main.py:290-318 | Each rule of the insight table fires exactly on its strict threshold. |
| Insights.InsightThresholds | main.py:282-318 | On whole seconds, each insight fires exactly when its condition holds. Low productivity: productivity under 30%. High productivity: over 70%. High entertainment: Entertainment alone over 40%, since "Social Media" is always zero. Batch communication: communication over 30%. 20-20-20 rule: more than 7200 seconds in total. |
| Insights.CombineShape | main.py:267-271 | The list is the specific recommendations in rule order, then the defaults in order. It has 4 entries when no rule fired and 5 otherwise, so it is never empty. Nothing specific is lost when at most five fired. |
| Insights.ProductivityGating | main.py:237-242 | Without a Productivity row, neither productivity recommendation appears, whatever the total. |
| Insights.SpecificFits | main.py:245-257 | For a real usage table, the rules never produce more than five specific recommendations. |
| Insights.ProductivityAdviceExact | main.py:237-242 | On whole seconds: break intervals above 70% and focus hours below 30%, both only when a Productivity row exists. |
| Insights.EntertainmentAdviceExact | main.py:245-247 | The entertainment pair appears exactly when Entertainment has more than 40% of the seconds. |
| Insights.CommunicationAdviceExact | main.py:250-252 | The communication pair appears exactly when Communication has more than 30% of the seconds. |
| Insights.BrowserAdviceExact | main.py:255-257 | The browser pair appears exactly when Browsers have more than 50% of the seconds. |
| Insights.SpecificSources | main.py:237-257 | Each specific recommendation comes from its own rule only. |
| Insights.ShownSpecific | main.py:267-271 | For a real usage table, a specific recommendation is shown exactly when its rule produced it. |
| Insights.RecommendationThresholds | main.py:237-271 | With the total of the table, each of the eight specific recommendations is shown exactly when its threshold holds on whole seconds. |
| Insights.InsightsAgreeWithRecommendations | main.py:237-257 | High productivity goes with break intervals, high entertainment with app timers, and heavy communication with message windows. Focus hours appear exactly with the low-productivity insight plus a Productivity row. |
| Insights.LowProductivityWithoutFocusHours | main.py:237-242 | A run with time but no Productivity row gets the low-productivity insight and no focus-hours recommendation. |
| Tracking.RunCounts | main.py:113-128 | Over a whole run, a tracked name's count is the number of rows it had across all samples. An untracked name never has a count. |
| Tracking.RunNotifiedKeys | main.py:96-110 | After a run, the keys with a notification time are those that had one before and those notified during the run. |
| Tracking.LastNotAfter | main.py:99-110 | Once a tick notified a key, every later state holds a time for that key that is no earlier than that tick's clock, even when the clock goes back. |
| Tracking.RunCooldown | main.py:99-100 | Whatever the clock does, when two ticks notify the same key, the later tick's clock is more than 10 seconds past the earlier one's. |
| Tracking.TrackScreenTime | main.py:111-133 | The cooldown map and the notifications are those of the specification run. The table is sorted and a permutation of the rows of its counts; every row is tracked, seen at least once, exact, and unique per application. |
| Scenario.ChromeIsBrowser | main.py:84-90 | "chrome.exe" and "CHROME.EXE" are both Browsers. |
| Scenario.CodeIsProductivity | main.py:84-90 | "code.exe" is Productivity. |
| Scenario.ConhostCaseMatters | main.py:120 | "conhost.exe" is a table key and is counted; "Conhost.exe" is not a key, so it is not counted. |
| Scenario.TabulateChromeAndCode | main.py:130-133 | Any sorted permutation of the rows for 3600 s of Chrome and 1800 s of VS Code puts Chrome first. |
| Scenario.ChromeAndCodeInsights | main.py:282-318 | For that table there are no insights: productivity is a third of the time (30 of 90 minutes), above the 30 % threshold. |
| Scenario.ChromeAndCodeRecommendations | main.py:237-271 | For that table the recommendations are the two browser items, then the first three defaults. |

## Left out

- The Streamlit UI in `main()` (main.py:322-388) is presentation. This includes the one-minute filter on the displayed table.
- `plot_screen_time` (main.py:135-176) is rendering only.
- Process enumeration is not modelled. The process list is a parameter, so a process that vanished or was denied (the swallowed exceptions at main.py:126-127) is simply not in the list.
- The clock is not modelled. `time.time()` and `time.sleep(1)` become one integer `now` per tick, and the duration loop becomes the given sequence of samples. The source reads the clock again inside every notification; the model uses the tick's `now` for all of them.
- The desktop notification call, its title and its message are not modelled. A notification is only the key added to the alerts and the cooldown map.
- Python's `str.lower` is modelled for ASCII letters only. Other Unicode case mappings are not modelled.
- Floating-point rounding is not modelled. Minutes and ratios are exact reals.
- Message texts, the insight type strings and the category colours are not modelled. Colours are kept only as table data.
- The earlier definition of `analyze_usage_patterns` (main.py:178-225) is not modelled. It is shadowed by the identical definition at main.py:273.
- Insights.CombineShape: the fallback `default_recommendations[:5]` at main.py:271 is not modelled separately. It can never be taken, because the list always holds the four defaults by then.
- The comment on `NOTIFICATION_THRESHOLD` (main.py:13) says seconds, but the code compares counts with `NOTIFICATION_THRESHOLD*60`. The model follows the code: 1800 ticks.
- Aggregation.Tabulate: the pandas sort is not specified to be stable, so the model leaves the order of equal-minute rows open. It is proved by insertion.
