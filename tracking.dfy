/** A whole tracking run: a fresh set of counts, one tick per sample of the
    process list, then the counts turned into the usage table sorted by
    minutes. The notifier (and so the cooldown state) outlives the run.

    How many ticks a run has is decided by the clock in `main.py`; here
    the run is the sequence of samples it took. */
module Tracking {
  import opened Registry
  import opened Sampler
  import opened Aggregation

  /** One tick of a run: the names of the processes seen, and the clock. */
  datatype Sample = Sample(procs: seq<string>, now: int)

  /** The ticks of `run`, in order, from `counts` and `last`; the alerts
      are those of every tick, in order. */
  function RunSpec(counts: map<string, nat>, last: map<string, int>, run: seq<Sample>): TickState
    decreases |run|
  {
    if run == [] then TickState(counts, last, [])
    else
      var s := RunSpec(counts, last, run[..|run| - 1]);
      var sample := run[|run| - 1];
      var t := TickSpec(s.counts, s.last, sample.procs, sample.now);
      TickState(t.counts, t.last, s.alerts + t.alerts)
  }

  /** How many rows named `name` the samples of `run` hold in all. */
  function Occurrences(run: seq<Sample>, name: string): nat
    decreases |run|
  {
    if run == [] then 0
    else Occurrences(run[..|run| - 1], name) + multiset(run[|run| - 1].procs)[name]
  }

  /** Over a whole run a tracked name is counted once per row it had in
      every sample, an untracked one never; a name has a count exactly when
      it had one before or is tracked and occurred. */
  lemma {:induction false} RunCounts(counts: map<string, nat>, last: map<string, int>, run: seq<Sample>)
    ensures forall n :: Count(RunSpec(counts, last, run).counts, n) ==
                        Count(counts, n) + (if Tracked(n) then Occurrences(run, n) else 0)
    ensures forall n :: n in RunSpec(counts, last, run).counts <==>
                        n in counts || (Tracked(n) && Occurrences(run, n) > 0)
  {
    if run != [] {
      var init := run[..|run| - 1];
      var sample := run[|run| - 1];
      RunCounts(counts, last, init);
      var s := RunSpec(counts, last, init);
      TickCounts(s.counts, s.last, sample.procs, sample.now);
      forall n ensures n in sample.procs <==> multiset(sample.procs)[n] > 0 {
      }
    }
  }

  /** After a run, the keys with a notification time are those that had
      one before and those notified during the run. */
  lemma {:induction false} RunNotifiedKeys(counts: map<string, nat>, last: map<string, int>, run: seq<Sample>)
    ensures var t := RunSpec(counts, last, run);
      forall k :: k in t.last <==> k in last || k in t.alerts
  {
    if run != [] {
      var init := run[..|run| - 1];
      var sample := run[|run| - 1];
      RunNotifiedKeys(counts, last, init);
      var s := RunSpec(counts, last, init);
      TickLast(s.counts, s.last, sample.procs, sample.now);
    }
  }

  /** The tick at index `i` of `run`, applied to the state the earlier ticks left. */
  function TickAt(counts: map<string, nat>, last: map<string, int>, run: seq<Sample>, i: nat): TickState
    requires i < |run|
  {
    var s := RunSpec(counts, last, run[..i]);
    TickSpec(s.counts, s.last, run[i].procs, run[i].now)
  }

  /** Once tick `i` notified `k`, every later state remembers a time for
      `k` no earlier than that tick's clock, whatever the clock does: a
      stored time is only replaced by one more than the cooldown later. */
  lemma {:induction false} LastNotAfter(counts: map<string, nat>, last: map<string, int>, run: seq<Sample>,
                                        i: nat, m: nat, k: string)
    requires i < m <= |run|
    requires k in TickAt(counts, last, run, i).alerts
    ensures var l := RunSpec(counts, last, run[..m]).last;
      k in l && l[k] >= run[i].now
    decreases m
  {
    var s := RunSpec(counts, last, run[..m - 1]);
    assert run[..m][..m - 1] == run[..m - 1];
    var t := TickSpec(s.counts, s.last, run[m - 1].procs, run[m - 1].now);
    assert RunSpec(counts, last, run[..m]).last == t.last;
    TickLast(s.counts, s.last, run[m - 1].procs, run[m - 1].now);
    if m - 1 > i {
      LastNotAfter(counts, last, run, i, m - 1, k);
      assert k in s.last && s.last[k] >= run[i].now;
      if k in t.alerts {
        TickAlertsFresh(s.counts, s.last, run[m - 1].procs, run[m - 1].now);
        assert MaySend(s.last, k, run[m - 1].now);
      }
    } else {
      assert t == TickAt(counts, last, run, i);
    }
  }

  /** The cooldown holds across the ticks of a run, even on a clock that
      goes back: when two different ticks notify the same key, the later
      tick's clock is more than the cooldown past the earlier one's. */
  lemma RunCooldown(counts: map<string, nat>, last: map<string, int>, run: seq<Sample>,
                    i: nat, j: nat, k: string)
    requires i < j < |run|
    requires k in TickAt(counts, last, run, i).alerts && k in TickAt(counts, last, run, j).alerts
    ensures run[j].now - run[i].now > NotificationCooldown
  {
    LastNotAfter(counts, last, run, i, j, k);
    var s := RunSpec(counts, last, run[..j]);
    var alerts := TickAt(counts, last, run, j).alerts;
    assert alerts == TickSpec(s.counts, s.last, run[j].procs, run[j].now).alerts;
    TickAlertsFresh(s.counts, s.last, run[j].procs, run[j].now);
    var x :| 0 <= x < |alerts| && alerts[x] == k;
    assert MaySend(s.last, k, run[j].now);
  }

  /** One tracking run with `notifier`; returns the usage table, sorted by
      minutes, and the display names notified, in order. */
  method TrackScreenTime(notifier: Notifier, run: seq<Sample>)
    returns (records: seq<UsageRecord>, alerts: seq<string>)
    modifies notifier
    ensures var t := RunSpec(map[], old(notifier.lastNotification), run);
      && notifier.lastNotification == t.last && alerts == t.alerts
      && multiset(records) == multiset(Entries(t.counts))
    ensures SortedByMinutes(records)
    ensures forall i :: 0 <= i < |records| ==>
              Tracked(records[i].app) && records[i].seconds >= 1 && ExactMinutes(records[i])
    ensures forall i, j :: 0 <= i < j < |records| ==> records[i].app != records[j].app
  {
    var session := new Session(notifier);
    alerts := [];
    var i := 0;
    while i < |run|
      invariant 0 <= i <= |run|
      invariant session.notifier == notifier && session.Valid()
      invariant var t := RunSpec(map[], old(notifier.lastNotification), run[..i]);
        session.screenTime == t.counts && notifier.lastNotification == t.last && alerts == t.alerts
    {
      var sent := session.Tick(run[i].procs, run[i].now);
      alerts := alerts + sent;
      assert run[..i + 1][..i] == run[..i];
      i := i + 1;
    }
    assert run[..|run|] == run;
    records := Tabulate(session.screenTime);
  }
}
