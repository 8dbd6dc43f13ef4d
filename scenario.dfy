/** A worked run: an hour of Chrome and half an hour of VS Code. The usage
    table lists Chrome first; productivity is exactly a third of the time,
    so no insight fires; the browser rule fires, so its two
    recommendations lead the list of five. */
module Scenario {
  import opened Registry
  import opened Sampler
  import opened Aggregation
  import opened Insights

  /** A pattern with a character the name lacks does not occur in it. */
  lemma MissingCharNoMatch(s: string, pattern: string, j: nat)
    requires j < |pattern| && pattern[j] !in s
    ensures !Contains(s, pattern)
  {
    ContainsAt(s, pattern);
  }

  /** Lower-case names are their own lower-case form. */
  lemma LowerOfLower(s: string)
    requires forall i :: 0 <= i < |s| ==> !('A' <= s[i] <= 'Z')
    ensures Lower(s) == s
  {
  }

  /** The same, for a pattern that is lower-cased first. */
  lemma MissingLowerCharNoMatch(s: string, pattern: string, j: nat)
    requires j < |pattern| && LowerChar(pattern[j]) !in s
    ensures !Contains(s, Lower(pattern))
  {
    MissingCharNoMatch(s, Lower(pattern), j);
  }

  lemma ChromeNotProductivity()
    ensures !AnyMemberIn(Categories[0].apps, "chrome.exe")
  {
    var apps := Categories[0].apps;
    forall j | 0 <= j < |apps| ensures !Contains("chrome.exe", Lower(apps[j])) {
      if j == 0 { MissingLowerCharNoMatch("chrome.exe", apps[j], 4); }        // excel: 'l'
      else if j == 3 { MissingLowerCharNoMatch("chrome.exe", apps[j], 2); }   // code: 'd'
      else { MissingLowerCharNoMatch("chrome.exe", apps[j], 0); }             // word, powerpoint, notepad
    }
  }

  lemma ChromeNotCommunication()
    ensures !AnyMemberIn(Categories[1].apps, "chrome.exe")
  {
    var apps := Categories[1].apps;
    forall j | 0 <= j < |apps| ensures !Contains("chrome.exe", Lower(apps[j])) {
      if j == 2 { MissingLowerCharNoMatch("chrome.exe", apps[j], 2); }        // outlook: 't'
      else if j == 3 { MissingLowerCharNoMatch("chrome.exe", apps[j], 1); }   // discord: 'i'
      else { MissingLowerCharNoMatch("chrome.exe", apps[j], 0); }             // teams, slack, skype, telegram, whatsapp
    }
  }

  /** Chrome is a browser, whatever the case of its name. */
  lemma ChromeIsBrowser()
    ensures Categorize("chrome.exe") == "Browsers"
    ensures Categorize("CHROME.EXE") == "Browsers"
  {
    var l := "chrome.exe";
    LowerOfLower(l);
    assert Lower("CHROME.EXE") == l;
    ChromeNotProductivity();
    ChromeNotCommunication();
    assert Lower(Categories[2].apps[0]) == l;
    assert Contains(l, Lower(Categories[2].apps[0]));
    assert FirstMatch(Categories, l) == FirstMatch(Categories[1..], l) == FirstMatch(Categories[2..], l);
  }

  /** VS Code is a productivity tool. */
  lemma CodeIsProductivity()
    ensures Categorize("code.exe") == "Productivity"
  {
    LowerOfLower("code.exe");
    assert Lower(Categories[0].apps[3]) == "code.exe";
    assert Contains("code.exe", Lower(Categories[0].apps[3]));
  }

  /** Table keys are compared exactly: the lower-case console host is a key
      and is counted; the capitalised one is not a key, so it is not. */
  lemma ConhostCaseMatters()
    ensures Tracked("conhost.exe")
    ensures "Conhost.exe" !in AppDisplayNames && !Tracked("Conhost.exe")
  {
  }

  /** The usage table of the run. */
  function ChromeAndCode(): seq<UsageRecord>
  {
    [MakeRecord("chrome.exe", 3600), MakeRecord("code.exe", 1800)]
  }

  /** The rows the counts of the run give. */
  lemma ChromeAndCodeEntries()
    ensures Entries(map["chrome.exe" := 3600, "code.exe" := 1800]) ==
            {MakeRecord("chrome.exe", 3600), MakeRecord("code.exe", 1800)}
  {
    var counts := map["chrome.exe" := 3600, "code.exe" := 1800];
    var a, b := MakeRecord("chrome.exe", 3600), MakeRecord("code.exe", 1800);
    assert "chrome.exe" in counts && a == MakeRecord("chrome.exe", counts["chrome.exe"]);
    assert "code.exe" in counts && b == MakeRecord("code.exe", counts["code.exe"]);
    forall r | r in Entries(counts) ensures r == a || r == b {
      var app :| app in counts && r == MakeRecord(app, counts[app]);
    }
  }

  /** Whatever order the counts are visited in, the table is Chrome first. */
  lemma TabulateChromeAndCode(records: seq<UsageRecord>)
    requires SortedByMinutes(records)
    requires multiset(records) == multiset(Entries(map["chrome.exe" := 3600, "code.exe" := 1800]))
    ensures records == ChromeAndCode()
  {
    ChromeAndCodeEntries();
    var a, b := MakeRecord("chrome.exe", 3600), MakeRecord("code.exe", 1800);
    assert multiset(records) == multiset{a, b};
    assert |records| == 2;
    assert records == [records[0], records[1]];
    assert multiset(records) == multiset{records[0], records[1]};
  }

  lemma ChromeAndCodeUsage()
    ensures CategoryUsage(ChromeAndCode()) == map["Browsers" := 60.0, "Productivity" := 30.0]
    ensures TotalMinutes(ChromeAndCode()) == 90.0
  {
    ChromeIsBrowser();
    CodeIsProductivity();
  }

  /** Productivity is exactly 30 of 90 minutes, not below 30%; nothing else
      crosses a threshold and 90 minutes is not above 120. */
  lemma ChromeAndCodeInsights()
    ensures AnalyzeUsagePatterns(ChromeAndCode()).0 == []
  {
    ChromeAndCodeUsage();
  }

  /** Browsers have 60 of 90 minutes, above half, so the browser advice
      comes first and the first three general items fill the list. */
  lemma ChromeAndCodeRecommendations()
    ensures GenerateRecommendations(ChromeAndCode(), 90.0) ==
            [BlockDistractingSites, TabManagement, MindfulComputing, BlueLightFilter, SessionGoals]
  {
    ChromeAndCodeUsage();
  }
}
