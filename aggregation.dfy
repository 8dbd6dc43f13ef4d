/** Turning the tick counts of a run into usage records (seconds, exact
    minutes, display name), sorted by minutes with the largest first, and
    summing the minutes per category. */
module Aggregation {
  import opened Registry

  /** One row of the usage table. The display-name column is derived from
      the application name. */
  datatype UsageRecord = UsageRecord(app: string, seconds: nat, minutes: real)
  {
    function DisplayName(): string
    {
      Registry.DisplayName(app)
    }
  }

  /** The row built for an application that was seen for `seconds` ticks. */
  function MakeRecord(app: string, seconds: nat): UsageRecord
  {
    UsageRecord(app, seconds, seconds as real / 60.0)
  }

  /** The minutes of a row are exactly its seconds divided by 60. */
  predicate ExactMinutes(r: UsageRecord)
  {
    r.minutes * 60.0 == r.seconds as real
  }

  predicate AllExact(rs: seq<UsageRecord>)
  {
    forall i :: 0 <= i < |rs| ==> ExactMinutes(rs[i])
  }

  /** The rows the counts give, one per counted application. */
  function Entries(counts: map<string, nat>): set<UsageRecord>
  {
    set app | app in counts :: MakeRecord(app, counts[app])
  }

  /** What a row of `Entries` is: the application's count, in seconds and
      in exact minutes. */
  lemma EntriesSpec(counts: map<string, nat>, r: UsageRecord)
    requires r in Entries(counts)
    ensures r.app in counts && r.seconds == counts[r.app]
    ensures ExactMinutes(r)
  {
  }

  /** Non-increasing by minutes; ties are in no particular order. */
  predicate SortedByMinutes(rs: seq<UsageRecord>)
  {
    forall i, j :: 0 <= i < j < |rs| ==> rs[i].minutes >= rs[j].minutes
  }

  /** Inserts `r` into a sorted sequence, before the first row with no more minutes than it. */
  function InsertByMinutes(rs: seq<UsageRecord>, r: UsageRecord): (out: seq<UsageRecord>)
    requires SortedByMinutes(rs)
    ensures SortedByMinutes(out)
    ensures multiset(out) == multiset(rs) + multiset{r}
  {
    if rs == [] || r.minutes >= rs[0].minutes then
      ConsSorted(r, rs);
      [r] + rs
    else
      var tail := InsertByMinutes(rs[1..], r);
      InsertBehind(rs, r, tail);
      [rs[0]] + tail
  }

  /** Keeping the first row in front of the rest with `r` inserted keeps
      the order and adds exactly `r`. */
  lemma InsertBehind(rs: seq<UsageRecord>, r: UsageRecord, tail: seq<UsageRecord>)
    requires rs != [] && SortedByMinutes(rs) && SortedByMinutes(tail) && r.minutes < rs[0].minutes
    requires multiset(tail) == multiset(rs[1..]) + multiset{r}
    ensures SortedByMinutes([rs[0]] + tail)
    ensures multiset([rs[0]] + tail) == multiset(rs) + multiset{r}
  {
    assert rs == [rs[0]] + rs[1..];
    forall x | x in tail ensures rs[0].minutes >= x.minutes {
      assert x in multiset(tail);
      if x != r {
        assert x in multiset(rs[1..]);
        var k :| 0 <= k < |rs[1..]| && rs[1..][k] == x;
        assert rs[k + 1] == x;
      }
    }
    ConsSorted(rs[0], tail);
  }

  /** A row with at least the minutes of every row of a sorted sequence can
      go in front of it. */
  lemma ConsSorted(h: UsageRecord, rs: seq<UsageRecord>)
    requires SortedByMinutes(rs)
    requires forall x :: x in rs ==> h.minutes >= x.minutes
    ensures SortedByMinutes([h] + rs)
  {
    var out := [h] + rs;
    forall i, j | 0 <= i < j < |out| ensures out[i].minutes >= out[j].minutes {
      assert out[j] == rs[j - 1];
      if i > 0 {
        assert out[i] == rs[i - 1];
      }
    }
  }

  /** The usage table of a run: every counted application exactly once
      (a permutation of `Entries(counts)`), sorted by minutes, largest first. */
  method Tabulate(counts: map<string, nat>) returns (records: seq<UsageRecord>)
    ensures SortedByMinutes(records)
    ensures multiset(records) == multiset(Entries(counts))
    ensures forall i :: 0 <= i < |records| ==>
              records[i].app in counts && records[i].seconds == counts[records[i].app] &&
              ExactMinutes(records[i])
    ensures forall i, j :: 0 <= i < j < |records| ==> records[i].app != records[j].app
  {
    records := [];
    var remaining := counts.Keys;
    while remaining != {}
      invariant remaining <= counts.Keys
      invariant SortedByMinutes(records)
      invariant multiset(records) == multiset(Done(counts, remaining))
      decreases remaining
    {
      var app :| app in remaining;
      DoneStep(counts, remaining, app);
      records := InsertByMinutes(records, MakeRecord(app, counts[app]));
      remaining := remaining - {app};
    }
    assert Done(counts, remaining) == Entries(counts);
    ListsEntries(counts, records);
  }

  /** The rows of the applications already tabulated. */
  function Done(counts: map<string, nat>, remaining: set<string>): set<UsageRecord>
  {
    set app | app in counts && app !in remaining :: MakeRecord(app, counts[app])
  }

  /** Tabulating one more application adds its row, which was not there yet. */
  lemma DoneStep(counts: map<string, nat>, remaining: set<string>, app: string)
    requires app in remaining && app in counts
    ensures MakeRecord(app, counts[app]) !in Done(counts, remaining)
    ensures multiset(Done(counts, remaining - {app})) ==
            multiset(Done(counts, remaining)) + multiset{MakeRecord(app, counts[app])}
  {
    var r := MakeRecord(app, counts[app]);
    assert Done(counts, remaining - {app}) == Done(counts, remaining) + {r};
  }

  /** A sequence listing `Entries(counts)` holds each application's row,
      one row per application. */
  lemma ListsEntries(counts: map<string, nat>, records: seq<UsageRecord>)
    requires multiset(records) == multiset(Entries(counts))
    ensures forall i :: 0 <= i < |records| ==>
              records[i].app in counts && records[i].seconds == counts[records[i].app] &&
              ExactMinutes(records[i])
    ensures forall i, j :: 0 <= i < j < |records| ==> records[i].app != records[j].app
  {
    forall i | 0 <= i < |records|
      ensures records[i].app in counts && records[i].seconds == counts[records[i].app] &&
              ExactMinutes(records[i])
    {
      assert records[i] in multiset(records);
      EntriesSpec(counts, records[i]);
    }
    forall i, j | 0 <= i < j < |records| ensures records[i].app != records[j].app {
      SetOrderDistinct(records, Entries(counts), i, j);
      assert records[j] in multiset(records);
      EntriesSpec(counts, records[j]);
    }
  }

  /** A sequence that lists a set holds each element once. */
  lemma SetOrderDistinct<T>(s: seq<T>, elems: set<T>, i: nat, j: nat)
    requires multiset(s) == multiset(elems)
    requires i < j < |s|
    ensures s[i] != s[j]
  {
    assert s == s[..j] + [s[j]] + s[j + 1..];
    assert s[i] in s[..j];
    assert multiset(s)[s[i]] ==
           multiset(s[..j])[s[i]] + multiset([s[j]])[s[i]] + multiset(s[j + 1..])[s[i]];
    assert multiset(elems)[s[i]] <= 1;
  }

  // ---------------------------------------------------------------------------
  // Totals and the group-by over categories

  function TotalMinutes(rs: seq<UsageRecord>): real
  {
    if rs == [] then 0.0 else rs[0].minutes + TotalMinutes(rs[1..])
  }

  function TotalSeconds(rs: seq<UsageRecord>): nat
  {
    if rs == [] then 0 else rs[0].seconds + TotalSeconds(rs[1..])
  }

  /** The seconds of the rows in category `c`. */
  function CategorySeconds(rs: seq<UsageRecord>, c: string): nat
  {
    if rs == [] then 0
    else (if Categorize(rs[0].app) == c then rs[0].seconds else 0) + CategorySeconds(rs[1..], c)
  }

  /** The summed minutes of category `c`, zero when it has no entry. */
  function Minutes(usage: map<string, real>, c: string): real
  {
    if c in usage then usage[c] else 0.0
  }

  /** Minutes summed per category; a category without rows has no entry. */
  function CategoryUsage(rs: seq<UsageRecord>): map<string, real>
  {
    if rs == [] then map[]
    else
      var rest := CategoryUsage(rs[1..]);
      var c := Categorize(rs[0].app);
      rest[c := Minutes(rest, c) + rs[0].minutes]
  }

  /** The total minutes are the total seconds divided by 60, with no rounding. */
  lemma {:induction false} TotalMinutesExact(rs: seq<UsageRecord>)
    requires AllExact(rs)
    ensures TotalMinutes(rs) * 60.0 == TotalSeconds(rs) as real
  {
    if rs != [] {
      TotalMinutesExact(rs[1..]);
    }
  }

  /** Some row of `rs` is categorised `c`. */
  predicate HasCategory(rs: seq<UsageRecord>, c: string)
  {
    exists i :: 0 <= i < |rs| && Categorize(rs[i].app) == c
  }

  /** A category has an entry exactly when some row is categorised into it. */
  lemma {:induction false} CategoryUsageKeys(rs: seq<UsageRecord>)
    ensures forall c :: c in CategoryUsage(rs) <==> HasCategory(rs, c)
  {
    if rs != [] {
      CategoryUsageKeys(rs[1..]);
      forall c | c in CategoryUsage(rs) && c != Categorize(rs[0].app)
        ensures HasCategory(rs, c)
      {
        assert c in CategoryUsage(rs[1..]);
        assert HasCategory(rs[1..], c);
        var i :| 0 <= i < |rs[1..]| && Categorize(rs[1..][i].app) == c;
        assert rs[i + 1] == rs[1..][i];
      }
      forall c | HasCategory(rs, c)
        ensures c in CategoryUsage(rs)
      {
        var i :| 0 <= i < |rs| && Categorize(rs[i].app) == c;
        if i > 0 {
          assert rs[1..][i - 1] == rs[i];
          assert HasCategory(rs[1..], c);
        }
      }
    }
  }

  /** The minutes of every category are its seconds divided by 60. */
  lemma {:induction false} CategoryUsageExact(rs: seq<UsageRecord>)
    requires AllExact(rs)
    ensures forall c :: Minutes(CategoryUsage(rs), c) * 60.0 == CategorySeconds(rs, c) as real
  {
    if rs != [] {
      assert AllExact(rs[1..]) by {
        forall i | 0 <= i < |rs[1..]| ensures ExactMinutes(rs[1..][i]) {
          assert rs[1..][i] == rs[i + 1];
        }
      }
      assert ExactMinutes(rs[0]);
      CategoryUsageExact(rs[1..]);
    }
  }

  /** A category without rows has no seconds. */
  lemma {:induction false} CategorySecondsNone(rs: seq<UsageRecord>, c: string)
    requires !HasCategory(rs, c)
    ensures CategorySeconds(rs, c) == 0
  {
    if rs != [] {
      assert Categorize(rs[0].app) != c;
      assert !HasCategory(rs[1..], c) by {
        forall i | 0 <= i < |rs[1..]| ensures Categorize(rs[1..][i].app) != c {
          assert rs[1..][i] == rs[i + 1];
        }
      }
      CategorySecondsNone(rs[1..], c);
    }
  }

  /** A category never has more seconds than the whole table. */
  lemma {:induction false} CategorySecondsBounded(rs: seq<UsageRecord>, c: string)
    ensures CategorySeconds(rs, c) <= TotalSeconds(rs)
  {
    if rs != [] {
      CategorySecondsBounded(rs[1..], c);
    }
  }

  /** No row is ever categorised "Social Media", so it never has minutes. */
  lemma NoSocialMedia(rs: seq<UsageRecord>)
    ensures "Social Media" !in CategoryUsage(rs)
  {
    CategoryUsageKeys(rs);
    forall i | 0 <= i < |rs| ensures Categorize(rs[i].app) != "Social Media" {
      CategorizeInRange(rs[i].app);
    }
  }

  /** The summed minutes of the categories named in `names`. */
  function SumOver(usage: map<string, real>, names: seq<string>): real
  {
    if names == [] then 0.0 else Minutes(usage, names[0]) + SumOver(usage, names[1..])
  }

  predicate Distinct(names: seq<string>)
  {
    forall i, j :: 0 <= i < j < |names| ==> names[i] != names[j]
  }

  lemma {:induction false} SumOverAdd(usage: map<string, real>, names: seq<string>, c: string, x: real)
    requires Distinct(names) && c in names
    ensures SumOver(usage[c := Minutes(usage, c) + x], names) == SumOver(usage, names) + x
  {
    var u := usage[c := Minutes(usage, c) + x];
    if names[0] == c {
      assert c !in names[1..];
      SumOverSkip(usage, names[1..], c, Minutes(usage, c) + x);
    } else {
      SumOverAdd(usage, names[1..], c, x);
    }
  }

  lemma {:induction false} SumOverSkip(usage: map<string, real>, names: seq<string>, c: string, v: real)
    requires c !in names
    ensures SumOver(usage[c := v], names) == SumOver(usage, names)
  {
    if names != [] {
      SumOverSkip(usage, names[1..], c, v);
    }
  }

  lemma AllCategoryNamesDistinct()
    ensures Distinct(AllCategoryNames())
  {
    var names := AllCategoryNames();
    assert names == ["Productivity", "Communication", "Browsers", "Entertainment", "Creative", "Other"];
  }

  /** The per-category sums add up to the total minutes. */
  lemma {:induction false} CategoryUsageTotal(rs: seq<UsageRecord>)
    ensures SumOver(CategoryUsage(rs), AllCategoryNames()) == TotalMinutes(rs)
  {
    if rs == [] {
      SumOverEmpty(AllCategoryNames());
    } else {
      CategoryUsageTotal(rs[1..]);
      AllCategoryNamesDistinct();
      CategorizeInRange(rs[0].app);
      SumOverAdd(CategoryUsage(rs[1..]), AllCategoryNames(), Categorize(rs[0].app), rs[0].minutes);
    }
  }

  /** The summed minutes of the six categories, one by one. */
  lemma SumOverCategories(usage: map<string, real>)
    ensures SumOver(usage, AllCategoryNames()) ==
            Minutes(usage, "Productivity") + Minutes(usage, "Communication") +
            Minutes(usage, "Browsers") + Minutes(usage, "Entertainment") +
            Minutes(usage, "Creative") + Minutes(usage, "Other")
  {
    var names := AllCategoryNames();
    assert names == ["Productivity", "Communication", "Browsers", "Entertainment", "Creative", "Other"];
    assert SumOver(usage, names[6..]) == 0.0;
    assert SumOver(usage, names[5..]) == Minutes(usage, "Other");
    assert SumOver(usage, names[4..]) == Minutes(usage, "Creative") + SumOver(usage, names[5..]);
    assert SumOver(usage, names[3..]) == Minutes(usage, "Entertainment") + SumOver(usage, names[4..]);
    assert SumOver(usage, names[2..]) == Minutes(usage, "Browsers") + SumOver(usage, names[3..]);
    assert SumOver(usage, names[1..]) == Minutes(usage, "Communication") + SumOver(usage, names[2..]);
  }

  lemma {:induction false} SumOverEmpty(names: seq<string>)
    ensures SumOver(map[], names) == 0.0
  {
    if names != [] {
      SumOverEmpty(names[1..]);
    }
  }
}
