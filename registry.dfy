/** The static configuration of the screen-time tracker and the pure lookups
    over it: the friendly display name of an executable, its usage category
    (first category, in declaration order, with a member that occurs in the
    lower-cased name) and the emoji of a category. */
module Registry {

  /** One entry of the category table: a name, the executable names that
      belong to it (matched as substrings), a display emoji and a colour. */
  datatype CategoryDef = CategoryDef(name: string, apps: seq<string>, emoji: string, color: string)

  /** Category returned when no category of the table matches. */
  const OtherCategory: string := "Other"

  /** Emoji returned for a category that is not in the table. */
  const FallbackEmoji: string := "📱"

  /** Executable name to friendly display name. Keys are compared exactly
      (case-sensitively): "Code.exe" and "code.exe" are two entries. */
  const AppDisplayNames: map<string, string> := map[
    "chrome.exe" := "🌐 Google Chrome",
    "firefox.exe" := "🦊 Firefox",
    "msedge.exe" := "🌐 Microsoft Edge",
    "spotify.exe" := "🎵 Spotify",
    "Code.exe" := "💻 Visual Studio Code",
    "postgres.exe" := "🐘 Postgres",
    "discord.exe" := "💬 Discord",
    "slack.exe" := "💼 Slack",
    "teams.exe" := "👥 Microsoft Teams",
    "code.exe" := "💻 VS Code",
    "notepad.exe" := "📝 Notepad",
    "excel.exe" := "📊 Excel",
    "word.exe" := "📄 Word",
    "powerpoint.exe" := "📺 PowerPoint",
    "outlook.exe" := "📧 Outlook",
    "steam.exe" := "🎮 Steam",
    "vlc.exe" := "🎥 VLC Media Player",
    "photoshop.exe" := "🎨 Photoshop",
    "illustrator.exe" := "✒️ Illustrator",
    "zoom.exe" := "🎥 Zoom",
    "skype.exe" := "💬 Skype",
    "obs64.exe" := "🎥 OBS Studio",
    "winrar.exe" := "📦 WinRAR",
    "7zg.exe" := "📦 7-Zip",
    "telegram.exe" := "✈️ Telegram",
    "whatsapp.exe" := "💬 WhatsApp",
    "netflix.exe" := "🎬 Netflix",
    "conhost.exe" := "✨ miscellanies ",
    "GitHubDesktop.exe" := "🐈‍⬛ Github"
  ]

  /** The category table, in declaration order (the order of the scan). */
  const Categories: seq<CategoryDef> := [
    CategoryDef("Productivity",
                ["excel.exe", "word.exe", "powerpoint.exe", "code.exe", "notepad.exe"],
                "💼", "#2ecc71"),
    CategoryDef("Communication",
                ["teams.exe", "slack.exe", "outlook.exe", "discord.exe", "skype.exe",
                 "telegram.exe", "whatsapp.exe"],
                "💬", "#3498db"),
    CategoryDef("Browsers",
                ["chrome.exe", "firefox.exe", "msedge.exe", "opera.exe", "safari.exe"],
                "🌐", "#9b59b6"),
    CategoryDef("Entertainment",
                ["spotify.exe", "netflix.exe", "steam.exe", "vlc.exe"],
                "🎮", "#e74c3c"),
    CategoryDef("Creative",
                ["photoshop.exe", "illustrator.exe", "obs64.exe"],
                "🎨", "#f1c40f")
  ]

  /** The names of the table, in declaration order. */
  function CategoryNames(): (names: seq<string>)
    ensures |names| == |Categories|
    ensures forall k :: 0 <= k < |Categories| ==> names[k] == Categories[k].name
    ensures names == ["Productivity", "Communication", "Browsers", "Entertainment", "Creative"]
  {
    seq(|Categories|, k requires 0 <= k < |Categories| => Categories[k].name)
  }

  /** Every category `Categorize` can return: the table's names, then "Other". */
  function AllCategoryNames(): seq<string>
  {
    CategoryNames() + [OtherCategory]
  }

  // ---------------------------------------------------------------------------
  // Display names

  /** The friendly name of an executable, or the executable name itself. */
  function DisplayName(app: string): (r: string)
    ensures app in AppDisplayNames ==> r == AppDisplayNames[app]
    ensures app !in AppDisplayNames ==> r == app
  {
    if app in AppDisplayNames then AppDisplayNames[app] else app
  }

  /** A display name equals the executable name exactly when the executable
      is not in the table: every table entry is a different string. */
  lemma DisplayNameFallback(app: string)
    ensures DisplayName(app) == app <==> app !in AppDisplayNames
  {
    if app in AppDisplayNames {
      assert AppDisplayNames[app] != app;
    }
  }

  // ---------------------------------------------------------------------------
  // Case folding and substring search

  /** Lower-cases one character (ASCII letters only). */
  function LowerChar(c: char): (r: char)
    ensures 'A' <= c <= 'Z' ==> 'a' <= r <= 'z' && r as int - c as int == 32
    ensures !('A' <= c <= 'Z') ==> r == c
  {
    if 'A' <= c <= 'Z' then (c as int + 32) as char else c
  }

  /** Lower-cases a string character by character. */
  function Lower(s: string): (r: string)
    ensures |r| == |s|
    ensures forall i :: 0 <= i < |s| ==> r[i] == LowerChar(s[i])
  {
    seq(|s|, i requires 0 <= i < |s| => LowerChar(s[i]))
  }

  /** The two strings differ at most in the letter case of their characters. */
  predicate SameIgnoringCase(a: string, b: string)
  {
    |a| == |b| && forall i :: 0 <= i < |a| ==> LowerChar(a[i]) == LowerChar(b[i])
  }

  /** `pattern` occurs in `s` at some position (Python's `pattern in s`). */
  predicate Contains(s: string, pattern: string)
    decreases |s|
  {
    pattern <= s || (|s| > 0 && Contains(s[1..], pattern))
  }

  /** `pattern` occurs in `s` starting at index `i`. */
  predicate OccursAt(s: string, pattern: string, i: int)
  {
    0 <= i <= |s| - |pattern| && s[i..i + |pattern|] == pattern
  }

  /** `Contains` is the usual "occurs at some index" relation. */
  lemma {:induction false} ContainsAt(s: string, pattern: string)
    ensures Contains(s, pattern) <==> exists i :: OccursAt(s, pattern, i)
  {
    if pattern <= s {
      assert OccursAt(s, pattern, 0);
    } else if |s| == 0 {
    } else {
      ContainsAt(s[1..], pattern);
      if Contains(s[1..], pattern) {
        var i :| OccursAt(s[1..], pattern, i);
        assert OccursAt(s, pattern, i + 1);
      }
      if exists i :: OccursAt(s, pattern, i) {
        var i :| OccursAt(s, pattern, i);
        if i > 0 {
          assert OccursAt(s[1..], pattern, i - 1);
        }
      }
    }
  }

  // ---------------------------------------------------------------------------
  // Categorisation

  /** Some member of `apps`, lower-cased, occurs in the lower-cased name. */
  predicate AnyMemberIn(apps: seq<string>, lowered: string)
  {
    exists j :: 0 <= j < |apps| && Contains(lowered, Lower(apps[j]))
  }

  /** The scan over the category table: the first category one of whose
      members occurs in `lowered`, or "Other". */
  function FirstMatch(defs: seq<CategoryDef>, lowered: string): string
  {
    if defs == [] then OtherCategory
    else if AnyMemberIn(defs[0].apps, lowered) then defs[0].name
    else FirstMatch(defs[1..], lowered)
  }

  /** The category of an executable name. */
  function Categorize(app: string): string
  {
    FirstMatch(Categories, Lower(app))
  }

  /** Category `k` of the table matches the lower-cased `app`. */
  predicate MatchesCategory(k: nat, app: string)
    requires k < |Categories|
  {
    AnyMemberIn(Categories[k].apps, Lower(app))
  }

  lemma {:induction false} FirstMatchSpec(defs: seq<CategoryDef>, lowered: string)
    requires forall k :: 0 <= k < |defs| ==> defs[k].name != OtherCategory
    ensures FirstMatch(defs, lowered) == OtherCategory <==>
            forall k :: 0 <= k < |defs| ==> !AnyMemberIn(defs[k].apps, lowered)
    ensures forall k :: 0 <= k < |defs| && AnyMemberIn(defs[k].apps, lowered) &&
                        (forall j :: 0 <= j < k ==> !AnyMemberIn(defs[j].apps, lowered))
                        ==> FirstMatch(defs, lowered) == defs[k].name
    ensures FirstMatch(defs, lowered) == OtherCategory ||
            exists k :: 0 <= k < |defs| && FirstMatch(defs, lowered) == defs[k].name
  {
    if defs != [] && !AnyMemberIn(defs[0].apps, lowered) {
      FirstMatchSpec(defs[1..], lowered);
      forall k | 0 <= k < |defs| && AnyMemberIn(defs[k].apps, lowered) &&
                 (forall j :: 0 <= j < k ==> !AnyMemberIn(defs[j].apps, lowered))
        ensures FirstMatch(defs, lowered) == defs[k].name
      {
        assert k > 0;
        assert defs[1..][k - 1] == defs[k];
      }
      if FirstMatch(defs, lowered) != OtherCategory {
        var k :| 0 <= k < |defs[1..]| && FirstMatch(defs[1..], lowered) == defs[1..][k].name;
        assert FirstMatch(defs, lowered) == defs[k + 1].name;
      }
    }
  }

  /** Categorisation is a first-match scan in declaration order: the result is
      the name of the first matching category, and "Other" exactly when no
      category matches. */
  lemma CategorizeFirstMatch(app: string)
    ensures Categorize(app) == OtherCategory <==>
            forall k :: 0 <= k < |Categories| ==> !MatchesCategory(k, app)
    ensures forall k :: 0 <= k < |Categories| && MatchesCategory(k, app) &&
                        (forall j :: 0 <= j < k ==> !MatchesCategory(j, app))
                        ==> Categorize(app) == Categories[k].name
  {
    assert forall k :: 0 <= k < |Categories| ==> Categories[k].name != OtherCategory;
    FirstMatchSpec(Categories, Lower(app));
    assert forall k :: 0 <= k < |Categories| ==>
      (MatchesCategory(k, app) <==> AnyMemberIn(Categories[k].apps, Lower(app)));
  }

  /** Categorisation is total and only ever yields one of the six declared
      names; in particular it never yields the legacy name "Social Media". */
  lemma CategorizeInRange(app: string)
    ensures Categorize(app) in AllCategoryNames()
    ensures Categorize(app) != "Social Media"
  {
    FirstMatchSpec(Categories, Lower(app));
    var r := Categorize(app);
    if r != OtherCategory {
      var k :| 0 <= k < |Categories| && r == Categories[k].name;
      assert AllCategoryNames()[k] == r;
    } else {
      assert AllCategoryNames()[|Categories|] == r;
    }
  }

  /** Two names that differ only in letter case have the same category. */
  lemma CategorizeIgnoresCase(a: string, b: string)
    requires SameIgnoringCase(a, b)
    ensures Categorize(a) == Categorize(b)
  {
    assert Lower(a) == Lower(b);
  }

  /** Lower-casing the name first does not change its category. */
  lemma {:induction false} CategorizeOfLower(app: string)
    ensures Categorize(Lower(app)) == Categorize(app)
  {
    assert SameIgnoringCase(Lower(app), app) by {
      forall i | 0 <= i < |app| ensures LowerChar(Lower(app)[i]) == LowerChar(app[i]) {
        assert Lower(app)[i] == LowerChar(app[i]);
      }
    }
    CategorizeIgnoresCase(Lower(app), app);
  }

  // ---------------------------------------------------------------------------
  // Category emoji

  /** The table entry named `category`, if any. */
  function FindCategory(defs: seq<CategoryDef>, category: string): (r: Option<CategoryDef>)
    ensures r.Some? ==> r.value in defs && r.value.name == category
    ensures r.None? ==> forall k :: 0 <= k < |defs| ==> defs[k].name != category
  {
    if defs == [] then None
    else if defs[0].name == category then Some(defs[0])
    else FindCategory(defs[1..], category)
  }

  /** The emoji of a category, or the fallback emoji for an unknown one. */
  function CategoryEmoji(category: string): string
  {
    match FindCategory(Categories, category)
    case Some(def) => def.emoji
    case None => FallbackEmoji
  }

  /** Every declared category has its own emoji; every other name, "Other"
      included, gets the fallback. */
  lemma CategoryEmojiSpec(category: string)
    ensures forall k :: 0 <= k < |Categories| && Categories[k].name == category ==>
              CategoryEmoji(category) == Categories[k].emoji
    ensures CategoryEmoji(category) == FallbackEmoji <==> category !in CategoryNames()
  {
    var defs := Categories;
    var names := CategoryNames();
    assert forall i, j :: 0 <= i < j < |defs| ==> defs[i].name != defs[j].name;
    assert forall i :: 0 <= i < |defs| ==> defs[i].emoji != FallbackEmoji;
    match FindCategory(defs, category)
    case Some(def) =>
      var i :| 0 <= i < |defs| && defs[i] == def;
      assert names[i] == category;
    case None =>
      assert category !in names;
  }

  /** An executable gets the fallback category emoji exactly when it is
      categorised as "Other". */
  lemma EmojiOfCategory(app: string)
    ensures CategoryEmoji(Categorize(app)) == FallbackEmoji <==> Categorize(app) == OtherCategory
  {
    CategorizeInRange(app);
    CategoryEmojiSpec(Categorize(app));
  }

  datatype Option<T> = None | Some(value: T)
}
