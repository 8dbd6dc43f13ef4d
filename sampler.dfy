/** The sampling side of the tracker: one pass over the process list per
    one-second tick adds one to the count of every tracked process row, and
    a per-display-name cooldown decides whether an over-threshold count
    raises a break notification.

    The process list and the clock are parameters: a tick is given the names
    of the processes it sees (a process that vanished is simply not in the
    list) and the current time in whole seconds. */
module Sampler {
  import opened Registry

  /** Break notifications start once a count reaches this many minutes. */
  const NotificationThreshold: nat := 30

  /** Seconds that must pass, strictly, between two notifications with the same key. */
  const NotificationCooldown: int := 10

  /** Count (in one-second ticks) at which a notification is requested. */
  const AlertTicks: nat := NotificationThreshold * 60

  /** Process names never counted. None of them is a key of the display-name
      table ("Conhost.exe" differs from the key "conhost.exe" in case), so
      the filter never removes a row the table lets through. */
  const IgnoredApps: set<string> := {
    "svchost.exe", "System Idle Process", "explorer.exe", "Registry",
    "csrss.exe", "wininit.exe", "Conhost.exe", "RuntimeBroker.exe"
  }

  /** A process row is counted when its name is a key of the display-name
      table and is not ignored. */
  predicate Tracked(name: string)
  {
    name in AppDisplayNames && name !in IgnoredApps
  }

  /** The ignore list changes nothing: a name is counted exactly when it is
      a key of the display-name table. */
  lemma TrackedIsTableKey(name: string)
    ensures Tracked(name) <==> name in AppDisplayNames
  {
    ServiceNamesNotKeys();
    ShellNamesNotKeys();
    SessionNamesNotKeys();
    HostNamesNotKeys();
  }

  // The ignored names, two at a time, are not keys of the display-name table.

  lemma ServiceNamesNotKeys()
    ensures "svchost.exe" !in AppDisplayNames && "System Idle Process" !in AppDisplayNames
  {
  }

  lemma ShellNamesNotKeys()
    ensures "explorer.exe" !in AppDisplayNames && "Registry" !in AppDisplayNames
  {
  }

  lemma SessionNamesNotKeys()
    ensures "csrss.exe" !in AppDisplayNames && "wininit.exe" !in AppDisplayNames
  {
  }

  lemma HostNamesNotKeys()
    ensures "Conhost.exe" !in AppDisplayNames && "RuntimeBroker.exe" !in AppDisplayNames
  {
  }

  /** The count of `name`, zero when it has none yet. */
  function Count(counts: map<string, nat>, name: string): nat
  {
    if name in counts then counts[name] else 0
  }

  /** The cooldown rule: a notification for `key` may go out when none was
      ever sent for it, or when more than the cooldown has passed since the
      last one. */
  predicate MaySend(last: map<string, int>, key: string, now: int)
  {
    key !in last || now - last[key] > NotificationCooldown
  }

  /** The state a tick works on: the counts, the time of the last
      notification per key, and the keys notified so far in this tick. */
  datatype TickState = TickState(counts: map<string, nat>, last: map<string, int>, alerts: seq<string>)

  /** The effect of one process row. */
  function Row(st: TickState, name: string, now: int): TickState
  {
    if !Tracked(name) then st
    else
      var count := Count(st.counts, name) + 1;
      var counts := st.counts[name := count];
      var key := DisplayName(name);
      if count >= AlertTicks && MaySend(st.last, key, now) then
        TickState(counts, st.last[key := now], st.alerts + [key])
      else
        TickState(counts, st.last, st.alerts)
  }

  /** The effect of one tick: the rows of `procs` applied in order, starting
      with no alerts. */
  function TickSpec(counts: map<string, nat>, last: map<string, int>, procs: seq<string>, now: int): TickState
    decreases |procs|
  {
    if procs == [] then TickState(counts, last, [])
    else Row(TickSpec(counts, last, procs[..|procs| - 1], now), procs[|procs| - 1], now)
  }

  /** Counts only grow, by one per tracked row: a tracked name that appears
      k times in the tick gains exactly k, every other count is unchanged,
      and a name becomes a key exactly when it is tracked and appears. */
  lemma {:induction false} TickCounts(counts: map<string, nat>, last: map<string, int>, procs: seq<string>, now: int)
    ensures forall n :: Count(TickSpec(counts, last, procs, now).counts, n) ==
                        Count(counts, n) + (if Tracked(n) then multiset(procs)[n] else 0)
    ensures forall n :: n in TickSpec(counts, last, procs, now).counts <==>
                        n in counts || (Tracked(n) && n in procs)
  {
    if procs != [] {
      var init := procs[..|procs| - 1];
      var x := procs[|procs| - 1];
      TickCounts(counts, last, init, now);
      assert procs == init + [x];
      assert multiset(procs) == multiset(init) + multiset{x};
    }
  }

  /** `key` is the display name of a tracked name of `procs` whose count in
      `counts` is at the notification threshold. */
  predicate AlertFor(procs: seq<string>, counts: map<string, nat>, key: string)
  {
    exists n :: n in procs && Tracked(n) && DisplayName(n) == key && Count(counts, n) >= AlertTicks
  }

  /** The notification times after one tick: the keys notified in the tick,
      and only they, now map to `now`; every other key keeps its time. */
  lemma {:induction false} TickLast(counts: map<string, nat>, last: map<string, int>, procs: seq<string>, now: int)
    ensures var t := TickSpec(counts, last, procs, now);
      && (forall k :: k in t.last <==> k in last || k in t.alerts)
      && (forall k :: k in t.last ==> t.last[k] == if k in t.alerts then now else last[k])
  {
    if procs != [] {
      TickLast(counts, last, procs[..|procs| - 1], now);
    }
  }

  /** Notifications within one tick: each alert's key was free to send
      (absent or cooled down) before the tick, and no key is notified twice
      in one tick. */
  lemma {:induction false} TickAlertsFresh(counts: map<string, nat>, last: map<string, int>, procs: seq<string>, now: int)
    ensures var t := TickSpec(counts, last, procs, now);
      && (forall i :: 0 <= i < |t.alerts| ==> MaySend(last, t.alerts[i], now))
      && (forall i, j :: 0 <= i < j < |t.alerts| ==> t.alerts[i] != t.alerts[j])
  {
    if procs != [] {
      var init := procs[..|procs| - 1];
      TickAlertsFresh(counts, last, init, now);
      TickLast(counts, last, init, now);
    }
  }

  /** Each alert of a tick belongs to a tracked name of the tick whose count
      is at the threshold. */
  lemma {:induction false} TickAlertsFor(counts: map<string, nat>, last: map<string, int>, procs: seq<string>, now: int)
    ensures forall i :: 0 <= i < |TickSpec(counts, last, procs, now).alerts| ==>
              AlertFor(procs, TickSpec(counts, last, procs, now).counts, TickSpec(counts, last, procs, now).alerts[i])
  {
    if procs != [] {
      var init := procs[..|procs| - 1];
      var x := procs[|procs| - 1];
      TickAlertsFor(counts, last, init, now);
      var s := TickSpec(counts, last, init, now);
      var t := TickSpec(counts, last, procs, now);
      assert t == Row(s, x, now);
      assert forall n :: Count(s.counts, n) <= Count(t.counts, n);
      assert |t.alerts| > |s.alerts| ==>
        Tracked(x) && t.alerts == s.alerts + [DisplayName(x)] && Count(t.counts, x) >= AlertTicks;
      assert |t.alerts| == |s.alerts| ==> t.alerts == s.alerts;
      forall i | 0 <= i < |t.alerts|
        ensures AlertFor(procs, t.counts, t.alerts[i])
      {
        if i < |s.alerts| {
          assert AlertFor(init, s.counts, s.alerts[i]);
          var n :| n in init && Tracked(n) && DisplayName(n) == s.alerts[i] &&
                   Count(s.counts, n) >= AlertTicks;
          assert n in procs;
        } else {
          assert x in procs;
        }
      }
    }
  }

  /** Notifications within one tick, together: each alert's key was free to
      send before the tick and belongs to a tracked name of the tick whose
      count is at the threshold; no key is notified twice in one tick. */
  lemma TickAlerts(counts: map<string, nat>, last: map<string, int>, procs: seq<string>, now: int)
    ensures var t := TickSpec(counts, last, procs, now);
      && (forall i :: 0 <= i < |t.alerts| ==> MaySend(last, t.alerts[i], now))
      && (forall i :: 0 <= i < |t.alerts| ==> AlertFor(procs, t.counts, t.alerts[i]))
      && (forall i, j :: 0 <= i < j < |t.alerts| ==> t.alerts[i] != t.alerts[j])
  {
    TickAlertsFresh(counts, last, procs, now);
    TickAlertsFor(counts, last, procs, now);
  }

  /** The converse: a tracked name of the tick that reaches the threshold
      and whose key was free to send before the tick is notified. */
  lemma {:induction false} TickAlertsComplete(counts: map<string, nat>, last: map<string, int>, procs: seq<string>, now: int)
    ensures forall n :: n in procs && Tracked(n) &&
                        Count(counts, n) + multiset(procs)[n] >= AlertTicks &&
                        MaySend(last, DisplayName(n), now)
                        ==> DisplayName(n) in TickSpec(counts, last, procs, now).alerts
  {
    if procs != [] {
      var init := procs[..|procs| - 1];
      var x := procs[|procs| - 1];
      assert procs == init + [x];
      assert multiset(procs) == multiset(init) + multiset{x};
      TickAlertsComplete(counts, last, init, now);
      TickCounts(counts, last, init, now);
      TickLast(counts, last, init, now);
      var s := TickSpec(counts, last, init, now);
      var t := TickSpec(counts, last, procs, now);
      assert t == Row(s, x, now);
      forall n | n in procs && Tracked(n) && Count(counts, n) + multiset(procs)[n] >= AlertTicks &&
                 MaySend(last, DisplayName(n), now)
        ensures DisplayName(n) in t.alerts
      {
        if n != x {
          assert n in init;
        } else if DisplayName(n) !in s.alerts {
          assert MaySend(s.last, DisplayName(n), now);
        }
      }
    }
  }

  /** Sends break notifications, keeping the time of the last one per key. */
  class Notifier {
    var lastNotification: map<string, int>

    constructor ()
      ensures lastNotification == map[]
    {
      lastNotification := map[];
    }

    /** Notifies under `appName` when the cooldown allows it and records the
        time; otherwise leaves the state alone. The notification itself is
        only reported through `sent`. */
    method Send(appName: string, now: int) returns (sent: bool)
      modifies this
      ensures sent <==> MaySend(old(lastNotification), appName, now)
      ensures lastNotification == if sent then old(lastNotification)[appName := now]
                                  else old(lastNotification)
    {
      sent := appName !in lastNotification || now - lastNotification[appName] > NotificationCooldown;
      if sent {
        lastNotification := lastNotification[appName := now];
      }
    }
  }

  /** One tracking run: the per-name tick counts, and the notifier it
      reports to (shared by every run). */
  class Session {
    var screenTime: map<string, nat>
    const notifier: Notifier

    /** Every counted name is tracked and has been seen at least once. */
    ghost predicate Valid()
      reads this
    {
      forall n :: n in screenTime ==> Tracked(n) && screenTime[n] >= 1
    }

    constructor (notifier: Notifier)
      ensures Valid()
      ensures screenTime == map[] && this.notifier == notifier
    {
      screenTime := map[];
      this.notifier := notifier;
    }

    /** One tick over the names of the running processes, at time `now`;
        returns the display names that were notified. */
    method Tick(procs: seq<string>, now: int) returns (alerts: seq<string>)
      requires Valid()
      modifies this, notifier
      ensures Valid()
      ensures var t := TickSpec(old(screenTime), old(notifier.lastNotification), procs, now);
        screenTime == t.counts && notifier.lastNotification == t.last && alerts == t.alerts
    {
      alerts := [];
      var i := 0;
      while i < |procs|
        invariant 0 <= i <= |procs|
        invariant var t := TickSpec(old(screenTime), old(notifier.lastNotification), procs[..i], now);
          screenTime == t.counts && notifier.lastNotification == t.last && alerts == t.alerts
      {
        var name := procs[i];
        ghost var before := TickState(screenTime, notifier.lastNotification, alerts);
        if Tracked(name) {
          var count := (if name in screenTime then screenTime[name] else 0) + 1;
          screenTime := screenTime[name := count];
          if count >= NotificationThreshold * 60 {
            var key := DisplayName(name);
            var sent := notifier.Send(key, now);
            if sent {
              alerts := alerts + [key];
            }
          }
        }
        assert TickState(screenTime, notifier.lastNotification, alerts) == Row(before, name, now);
        assert procs[..i + 1][..i] == procs[..i];
        i := i + 1;
      }
      assert procs[..|procs|] == procs;
      TickCounts(old(screenTime), old(notifier.lastNotification), procs, now);
    }
  }
}
