/** The sliding-window limiter for pairing attempts. */
module Limiter {
  import opened Common

  datatype Limits = Limits(maximumAttempts: nat, windowSeconds: nat, maximumTrackedKeys: nat)

  type Table = map<Id, seq<Time>>

  datatype Verdict = Accepted | RateLimited(retryAfterSeconds: int)

  function Window(l: Limits): nat {
    l.windowSeconds * 1000
  }

  /** The times later than `after`. */
  function Recent(values: seq<Time>, after: Time): (r: seq<Time>)
    ensures |r| <= |values|
    ensures forall v :: v in r <==> v in values && v > after
  {
    if values == [] then []
    else
      var n := |values| - 1;
      Recent(values[..n], after) + if values[n] > after then [values[n]] else []
  }

  function TimesOf(m: Table, key: Id): seq<Time> {
    if key in m then m[key] else []
  }

  function Pruned(m: Table, after: Time): Table {
    map k | k in m && Recent(m[k], after) != [] :: Recent(m[k], after)
  }

  /** The least number of whole seconds not below `ms` milliseconds. */
  function Seconds(ms: int): int {
    (ms + 999) / 1000
  }

  function RetryAfter(l: Limits, oldest: Time, now: Time): int {
    var s := Seconds(oldest + Window(l) - now);
    if s < 1 then 1 else s
  }

  /** One attempt: the table afterwards and the verdict. */
  function Consume(l: Limits, m: Table, key: Id, now: Time): (Table, Verdict) {
    var after := now - Window(l);
    var kept := Pruned(m, after);
    var recent := Recent(TimesOf(kept, key), after);
    if |recent| >= l.maximumAttempts then
      (kept, RateLimited(RetryAfter(l, if recent == [] then now else recent[0], now)))
    else if key !in kept && |kept| >= l.maximumTrackedKeys then (kept, RateLimited(l.windowSeconds))
    else (kept[key := recent + [now]], Accepted)
  }

  datatype Event = Attempt(key: Id, at: Time) | Reset(key: Id, at: Time) | CountKeys(at: Time)

  function Step(l: Limits, m: Table, e: Event): Table {
    match e
    case Attempt(key, at) => Consume(l, m, key, at).0
    case Reset(key, _) => m - {key}
    case CountKeys(at) => Pruned(m, at - Window(l))
  }

  /** The table after the first `n` events, starting from an empty one. */
  function TableAfter(l: Limits, events: seq<Event>, n: nat): Table
    requires n <= |events|
  {
    if n == 0 then map[] else Step(l, TableAfter(l, events, n - 1), events[n - 1])
  }

  /** The accepted attempts of a key since its last reset, over the first `n` events. */
  function History(l: Limits, events: seq<Event>, key: Id, n: nat): seq<Time>
    requires n <= |events|
  {
    if n == 0 then []
    else Remembered(l, TableAfter(l, events, n - 1), events[n - 1], key, History(l, events, key, n - 1))
  }

  /** The clock never goes back. */
  ghost predicate Clocked(events: seq<Event>) {
    forall i, j :: 0 <= i < j < |events| ==> events[i].at <= events[j].at
  }

  ghost predicate Ascending(times: seq<Time>) {
    forall i, j :: 0 <= i < j < |times| ==> times[i] <= times[j]
  }

  // ---------------------------------------------------------------- facts about the recent times

  lemma NoneRecent(after: Time)
    ensures Recent([], after) == []
  {
  }

  lemma {:induction false} RecentAppend(values: seq<Time>, v: Time, after: Time)
    ensures Recent(values + [v], after) == Recent(values, after) + if v > after then [v] else []
  {
    assert (values + [v])[..|values|] == values;
  }

  /** Dropping the old and then the older leaves the recent. */
  lemma {:induction false} RecentTwice(values: seq<Time>, after: Time, later: Time)
    requires after <= later
    ensures Recent(Recent(values, after), later) == Recent(values, later)
  {
    if values == [] {
    } else {
      var n := |values| - 1;
      RecentTwice(values[..n], after, later);
      if values[n] > after {
        RecentAppend(Recent(values[..n], after), values[n], later);
      } else {
        assert Recent(values, after) == Recent(values[..n], after);
      }
    }
  }

  /** In an ascending history the recent times are those from the first recent one on. */
  lemma {:induction false} RecentCount(times: seq<Time>, after: Time, i: nat)
    requires Ascending(times) && i < |times|
    ensures times[i] > after ==> |Recent(times, after)| >= |times| - i
    ensures times[i] <= after ==> |Recent(times, after)| <= |times| - i - 1
  {
    var n := |times| - 1;
    if i < n {
      RecentCount(times[..n], after, i);
    } else if times[n] <= after {
      NothingRecent(times, after);
    }
  }

  lemma {:induction false} NothingRecent(times: seq<Time>, after: Time)
    requires Ascending(times) && times != [] && times[|times| - 1] <= after
    ensures Recent(times, after) == []
  {
    var n := |times| - 1;
    if n == 0 {
    } else {
      NothingRecent(times[..n], after);
    }
  }

  lemma {:induction false} RecentAscending(times: seq<Time>, after: Time)
    requires Ascending(times)
    ensures Ascending(Recent(times, after))
  {
    if times == [] {
    } else {
      var n := |times| - 1;
      var earlier := Recent(times[..n], after);
      RecentAscending(times[..n], after);
      forall i | 0 <= i < |earlier| ensures earlier[i] <= times[n] {
        assert earlier[i] in times[..n];
      }
    }
  }

  lemma PrunedTimes(m: Table, after: Time, later: Time, key: Id)
    requires after <= later
    ensures Recent(TimesOf(Pruned(m, after), key), later) == Recent(TimesOf(m, key), later)
  {
    if key in m {
      RecentTwice(m[key], after, later);
      if Recent(m[key], after) == [] {
        assert Recent(m[key], later) == [];
      }
    }
  }

  // ---------------------------------------------------------------- the table against the history

  /** From `now` on, the table knows of a key exactly what its history says is recent. */
  ghost predicate Knows(l: Limits, m: Table, key: Id, history: seq<Time>, now: Time) {
    forall t: Time {:trigger KnowsAt(l, m, key, history, t)} :: t >= now ==> KnowsAt(l, m, key, history, t)
  }

  ghost predicate KnowsAt(l: Limits, m: Table, key: Id, history: seq<Time>, t: Time) {
    Recent(TimesOf(m, key), t - Window(l)) == Recent(history, t - Window(l))
  }

  /** No `maximumAttempts + 1` accepted attempts fall within one window. */
  ghost predicate Spaced(l: Limits, history: seq<Time>) {
    forall i: nat {:trigger SpacedAt(l, history, i)} :: i + l.maximumAttempts < |history| ==> SpacedAt(l, history, i)
  }

  predicate SpacedAt(l: Limits, history: seq<Time>, i: nat)
    requires i + l.maximumAttempts < |history|
  {
    history[i + l.maximumAttempts] >= history[i] + Window(l)
  }

  ghost predicate Explains(l: Limits, m: Table, key: Id, history: seq<Time>, now: Time) {
    && Ascending(history) && (forall i :: 0 <= i < |history| ==> history[i] <= now)
    && Knows(l, m, key, history, now) && Spaced(l, history)
  }

  /** An attempt is accepted if and only if the history leaves room in the window, and the table has room. */
  lemma AttemptDecided(l: Limits, m: Table, key: Id, history: seq<Time>, now: Time)
    requires KnowsAt(l, m, key, history, now)
    ensures var kept := Pruned(m, now - Window(l));
            Recent(TimesOf(kept, key), now - Window(l)) == Recent(history, now - Window(l)) &&
            (Consume(l, m, key, now).1.Accepted? <==>
               |Recent(history, now - Window(l))| < l.maximumAttempts && (key in kept || |kept| < l.maximumTrackedKeys))
  {
    hide Recent, Pruned;
    PrunedTimes(m, now - Window(l), now - Window(l), key);
  }

  lemma AcceptedKeepsSpacing(l: Limits, history: seq<Time>, now: Time)
    requires Ascending(history) && Spaced(l, history) && |Recent(history, now - Window(l))| < l.maximumAttempts
    ensures Spaced(l, history + [now])
  {
    var more := history + [now];
    forall i: nat | i + l.maximumAttempts < |more| ensures SpacedAt(l, more, i) {
      if i + l.maximumAttempts == |history| {
        RecentCount(history, now - Window(l), i);
      } else {
        assert SpacedAt(l, history, i);
      }
    }
  }

  /** Pruning forgets only what no later window can contain. */
  lemma PruningKnows(l: Limits, m: Table, key: Id, history: seq<Time>, before: Time, now: Time)
    requires Knows(l, m, key, history, before) && before <= now
    ensures Knows(l, Pruned(m, now - Window(l)), key, history, now)
  {
    hide Recent, Pruned;
    var kept := Pruned(m, now - Window(l));
    forall t: Time | t >= now ensures KnowsAt(l, kept, key, history, t) {
      assert KnowsAt(l, m, key, history, t);
      PrunedTimes(m, now - Window(l), t - Window(l), key);
    }
  }

  /** The table after an attempt on a key, as far as one key is concerned. */
  lemma {:induction false} TimesAfterAttempt(l: Limits, m: Table, k: Id, now: Time, key: Id)
    ensures var kept := Pruned(m, now - Window(l));
            TimesOf(Consume(l, m, k, now).0, key) ==
              if key == k && Consume(l, m, k, now).1.Accepted? then Recent(TimesOf(kept, key), now - Window(l)) + [now]
              else TimesOf(kept, key)
  {
    hide Recent, Pruned;
  }

  lemma AttemptKnows(l: Limits, m: Table, k: Id, key: Id, history: seq<Time>, before: Time, now: Time)
    requires Knows(l, m, key, history, before) && before <= now
    ensures Knows(l, Consume(l, m, k, now).0, key,
                  if k == key && Consume(l, m, k, now).1.Accepted? then history + [now] else history, now)
  {
    hide Recent, Pruned, Consume;
    var kept, next := Pruned(m, now - Window(l)), Consume(l, m, k, now).0;
    PruningKnows(l, m, key, history, before, now);
    TimesAfterAttempt(l, m, k, now, key);
    if k == key && Consume(l, m, k, now).1.Accepted? {
      forall t: Time | t >= now ensures KnowsAt(l, next, key, history + [now], t) {
        assert KnowsAt(l, kept, key, history, t);
        RecentTwice(TimesOf(kept, key), now - Window(l), t - Window(l));
        RecentAppend(Recent(TimesOf(kept, key), now - Window(l)), now, t - Window(l));
        RecentAppend(history, now, t - Window(l));
      }
    } else {
      forall t: Time | t >= now ensures KnowsAt(l, next, key, history, t) {
        assert KnowsAt(l, kept, key, history, t);
      }
    }
  }

  /** What an event adds to the history of a key. */
  function Remembered(l: Limits, m: Table, e: Event, key: Id, history: seq<Time>): seq<Time> {
    match e
    case Attempt(k, at) => if k == key && Consume(l, m, k, at).1.Accepted? then history + [at] else history
    case Reset(k, _) => if k == key then [] else history
    case CountKeys(_) => history
  }

  lemma ResetKnows(l: Limits, m: Table, k: Id, key: Id, history: seq<Time>, before: Time, now: Time)
    requires Knows(l, m, key, history, before) && before <= now
    ensures Knows(l, m - {k}, key, if k == key then [] else history, now)
  {
    hide Recent;
    forall t: Time | t >= now && k != key ensures KnowsAt(l, m - {k}, key, history, t) {
      assert KnowsAt(l, m, key, history, t);
    }
  }

  /** One event keeps the table in step with the history of every key. */
  lemma StepExplained(l: Limits, m: Table, e: Event, key: Id, history: seq<Time>, before: Time)
    requires Explains(l, m, key, history, before) && before <= e.at
    ensures Explains(l, Step(l, m, e), key, Remembered(l, m, e, key, history), e.at)
  {
    hide Recent, Pruned, Consume, Knows, Spaced;
    match e
    case Attempt(k, at) =>
      AttemptKnows(l, m, k, key, history, before, at);
      if k == key && Consume(l, m, k, at).1.Accepted? {
        assert KnowsAt(l, m, key, history, at) by { KnownAt(l, m, key, history, before, at); }
        AttemptDecided(l, m, key, history, at);
        AcceptedKeepsSpacing(l, history, at);
      }
    case Reset(k, at) =>
      NoneSpaced(l);
      ResetKnows(l, m, k, key, history, before, at);
    case CountKeys(at) =>
      PruningKnows(l, m, key, history, before, at);
  }

  lemma NoneSpaced(l: Limits)
    ensures Spaced(l, [])
  {
  }

  lemma KnownAt(l: Limits, m: Table, key: Id, history: seq<Time>, before: Time, now: Time)
    requires Knows(l, m, key, history, before) && before <= now
    ensures KnowsAt(l, m, key, history, now)
  {
  }

  // ---------------------------------------------------------------- over every run

  function TimeAt(events: seq<Event>, n: nat): Time
    requires n <= |events|
  {
    if events == [] then 0 else if n == 0 then events[0].at else events[n - 1].at
  }

  lemma StartExplained(l: Limits, key: Id, now: Time)
    ensures Explains(l, map[], key, [], now)
  {
    NoneSpaced(l);
    forall t: Time ensures KnowsAt(l, map[], key, [], t) {
    }
  }

  lemma {:induction false} RunExplained(l: Limits, events: seq<Event>, key: Id, n: nat)
    requires Clocked(events) && n <= |events|
    ensures Explains(l, TableAfter(l, events, n), key, History(l, events, key, n), TimeAt(events, n))
  {
    hide Explains, Remembered, Step;
    if n == 0 {
      StartExplained(l, key, TimeAt(events, 0));
    } else {
      RunExplained(l, events, key, n - 1);
      StepExplained(l, TableAfter(l, events, n - 1), events[n - 1], key, History(l, events, key, n - 1),
                    TimeAt(events, n - 1));
    }
  }

  /**
   * Over every run, any window holds at most `maximumAttempts` accepted attempts of a key since its last
   * reset: one more than that many consecutive ones are never less than a window apart.
   */
  lemma {:induction false} WindowBound(l: Limits, events: seq<Event>, key: Id, n: nat, i: nat, j: nat)
    requires Clocked(events) && n <= |events|
    requires i + l.maximumAttempts <= j < |History(l, events, key, n)|
    ensures var h := History(l, events, key, n); h[j] - h[i] >= Window(l)
  {
    hide Recent, Consume, Pruned, Knows, TableAfter, History;
    var h := History(l, events, key, n);
    RunExplained(l, events, key, n);
    assert SpacedAt(l, h, i) && h[i + l.maximumAttempts] <= h[j];
  }

  lemma PrunedSize(m: Table, after: Time)
    ensures |Pruned(m, after)| <= |m|
  {
    assert Pruned(m, after).Keys <= m.Keys;
    SubsetSize(Pruned(m, after).Keys, m.Keys);
    assert |Pruned(m, after).Keys| == |Pruned(m, after)| && |m.Keys| == |m|;
  }

  lemma {:induction false} SubsetSize(a: set<Id>, b: set<Id>)
    requires a <= b
    ensures |a| <= |b|
  {
    if a == {} {
    } else {
      var x :| x in a;
      SubsetSize(a - {x}, b - {x});
    }
  }

  /** One attempt adds at most its own key, and only below the cap. */
  lemma AttemptSize(l: Limits, m: Table, key: Id, now: Time)
    requires |m| <= l.maximumTrackedKeys
    ensures |Consume(l, m, key, now).0| <= l.maximumTrackedKeys
  {
    hide Recent, Pruned, Window, RetryAfter;
    var kept := Pruned(m, now - Window(l));
    var recent := Recent(TimesOf(kept, key), now - Window(l)) + [now];
    PrunedSize(m, now - Window(l));
    if key in kept {
      assert kept[key := recent].Keys == kept.Keys;
      assert |kept[key := recent].Keys| == |kept[key := recent]| && |kept.Keys| == |kept|;
    }
  }

  lemma StepSize(l: Limits, m: Table, e: Event)
    requires |m| <= l.maximumTrackedKeys
    ensures |Step(l, m, e)| <= l.maximumTrackedKeys
  {
    hide Consume, Pruned;
    match e
    case Attempt(key, at) => AttemptSize(l, m, key, at);
    case Reset(key, _) =>
      SubsetSize((m - {key}).Keys, m.Keys);
      assert |(m - {key}).Keys| == |m - {key}| && |m.Keys| == |m|;
    case CountKeys(at) => PrunedSize(m, at - Window(l));
  }

  /** The number of tracked keys never exceeds the cap. */
  lemma {:induction false} TrackedKeysBounded(l: Limits, events: seq<Event>, n: nat)
    requires n <= |events|
    ensures |TableAfter(l, events, n)| <= l.maximumTrackedKeys
  {
    hide Step;
    if n == 0 {
    } else {
      TrackedKeysBounded(l, events, n - 1);
      StepSize(l, TableAfter(l, events, n - 1), events[n - 1]);
    }
  }

  // ---------------------------------------------------------------- the verdict, from the run alone

  /** The key has an accepted attempt, since its last reset, within the window that ends now. */
  ghost predicate Tracked(l: Limits, events: seq<Event>, n: nat, now: Time, key: Id)
    requires n <= |events|
  {
    exists t {:trigger t in History(l, events, key, n)} ::
      t in History(l, events, key, n) && t > now - l.windowSeconds * 1000
  }

  /** Pruning keeps exactly the keys with a recent attempt, so old keys take up no room. */
  lemma {:induction false} KeptExactly(l: Limits, events: seq<Event>, n: nat, now: Time, key: Id)
    requires Clocked(events) && n <= |events| && now >= TimeAt(events, n)
    ensures key in Pruned(TableAfter(l, events, n), now - Window(l)) <==> Tracked(l, events, n, now, key)
  {
    hide Recent, Consume, TableAfter, History, Knows, Spaced;
    var m, history := TableAfter(l, events, n), History(l, events, key, n);
    RunExplained(l, events, key, n);
    KnownAt(l, m, key, history, TimeAt(events, n), now);
    NoneRecent(now - Window(l));
    var recent := Recent(history, now - Window(l));
    if recent != [] {
      assert recent[0] in recent;
    }
  }

  /**
   * The verdict on an attempt, over every run: limited for too many accepted attempts of the key within the window,
   * with the time to wait; limited for a full window if the key is not tracked and too many others are; else accepted.
   */
  lemma {:induction false} AttemptExactly(l: Limits, events: seq<Event>, n: nat, tracked: set<Id>)
    requires Clocked(events) && n < |events| && events[n].Attempt?
    requires forall k: Id {:trigger k in tracked} :: k in tracked <==> Tracked(l, events, n, events[n].at, k)
    ensures var (key, now) := (events[n].key, events[n].at);
            var recent := Recent(History(l, events, key, n), now - l.windowSeconds * 1000);
            Consume(l, TableAfter(l, events, n), key, now).1 ==
              if |recent| >= l.maximumAttempts
              then RateLimited(RetryAfter(l, if recent == [] then now else recent[0], now))
              else if key !in tracked && |tracked| >= l.maximumTrackedKeys then RateLimited(l.windowSeconds)
              else Accepted
  {
    hide Recent, Pruned, TableAfter, History, Knows, Spaced, RetryAfter, Tracked;
    var (key, now) := (events[n].key, events[n].at);
    var m, history := TableAfter(l, events, n), History(l, events, key, n);
    var kept := Pruned(m, now - Window(l));
    RunExplained(l, events, key, n);
    KnownAt(l, m, key, history, TimeAt(events, n), now);
    AttemptDecided(l, m, key, history, now);
    forall k: Id ensures k in kept <==> k in tracked {
      KeptExactly(l, events, n, now, k);
    }
    assert kept.Keys == tracked && |kept.Keys| == |kept|;
  }

  // ---------------------------------------------------------------- how long a key stays rejected

  lemma SuffixOfMore(a: seq<Time>, k: nat, v: Time)
    requires k <= |a|
    ensures (a + [v])[k..] == a[k..] + [v]
  {
  }

  lemma {:induction false} RecentSuffix(times: seq<Time>, after: Time)
    requires Ascending(times)
    ensures Recent(times, after) == times[|times| - |Recent(times, after)|..]
  {
    if times == [] {
    } else {
      var n := |times| - 1;
      var earlier := Recent(times[..n], after);
      RecentSuffix(times[..n], after);
      if times[n] <= after {
        NothingRecent(times, after);
      } else {
        assert times == times[..n] + [times[n]];
        SuffixOfMore(times[..n], n - |earlier|, times[n]);
      }
    }
  }

  lemma AllRecent(times: seq<Time>, after: Time)
    requires forall i :: 0 <= i < |times| ==> times[i] > after
    ensures Recent(times, after) == times
  {
    if times == [] {
    } else {
      AllRecent(times[..|times| - 1], after);
    }
  }

  lemma {:induction false} RecentGrows(a: seq<Time>, b: seq<Time>, after: Time)
    ensures |Recent(a + b, after)| >= |Recent(a, after)|
  {
    if b == [] {
      assert a + b == a;
    } else {
      var n := |b| - 1;
      RecentGrows(a, b[..n], after);
      assert (a + b)[..|a| + n] == a + b[..n];
    }
  }

  lemma {:induction false} HistoryGrows(l: Limits, events: seq<Event>, key: Id, n: nat, m: nat)
    requires n <= m <= |events|
    requires forall i :: n <= i < m ==> !(events[i].Reset? && events[i].key == key)
    ensures History(l, events, key, n) <= History(l, events, key, m)
  {
    hide Consume, Recent, TableAfter;
    if n < m {
      HistoryGrows(l, events, key, n, m - 1);
    }
  }

  /**
   * A key over its limit stays rejected until its oldest recent attempt leaves the window, whatever else
   * happens in between, unless it is reset.
   */
  lemma {:induction false} StaysRejected(l: Limits, events: seq<Event>, key: Id, n: nat, m: nat)
    requires Clocked(events) && l.maximumAttempts > 0 && n <= m < |events|
    requires events[n].Attempt? && events[n].key == key && events[m].Attempt? && events[m].key == key
    requires forall i :: n <= i < m ==> !(events[i].Reset? && events[i].key == key)
    requires |Recent(History(l, events, key, n), events[n].at - Window(l))| >= l.maximumAttempts
    requires events[m].at < Recent(History(l, events, key, n), events[n].at - Window(l))[0] + Window(l)
    ensures Consume(l, TableAfter(l, events, m), key, events[m].at).1.RateLimited?
  {
    hide Recent, Consume, Pruned, Knows, TableAfter, History;
    var h, g := History(l, events, key, n), History(l, events, key, m);
    var early, late := events[n].at - Window(l), events[m].at - Window(l);
    RunExplained(l, events, key, n);
    RunExplained(l, events, key, m);
    HistoryGrows(l, events, key, n, m);
    RecentAscending(h, early);
    AllRecent(Recent(h, early), late);
    RecentTwice(h, early, late);
    RecentGrows(h, g[|h|..], late);
    assert g == h + g[|h|..];
    KnownAt(l, TableAfter(l, events, m), key, g, TimeAt(events, m), events[m].at);
    AttemptDecided(l, TableAfter(l, events, m), key, g, events[m].at);
  }

  /** The returned number of seconds is the least that reaches the end of the oldest attempt's window. */
  lemma RetryAfterExact(l: Limits, oldest: Time, now: Time)
    requires oldest + Window(l) > now
    ensures var s := RetryAfter(l, oldest, now);
            s >= 1 && now + 1000 * (s - 1) < oldest + Window(l) <= now + 1000 * s
  {
  }

  /**
   * Waiting the returned seconds suffices over every run: whatever other keys do meanwhile, and however often the
   * key itself is rejected, an attempt after that time is accepted if and only if the table has room for the key.
   */
  lemma {:induction false} WaitingSuffices(l: Limits, events: seq<Event>, key: Id, n: nat, m: nat)
    requires Clocked(events) && l.maximumAttempts > 0 && n < m < |events|
    requires events[n].Attempt? && events[n].key == key && events[m].Attempt? && events[m].key == key
    requires |Recent(History(l, events, key, n), events[n].at - Window(l))| >= l.maximumAttempts
    requires History(l, events, key, m) == History(l, events, key, n)
    ensures var verdict := Consume(l, TableAfter(l, events, n), key, events[n].at).1;
            verdict.RateLimited? &&
            (events[m].at >= events[n].at + 1000 * verdict.retryAfterSeconds ==>
              var kept := Pruned(TableAfter(l, events, m), events[m].at - Window(l));
              (Consume(l, TableAfter(l, events, m), key, events[m].at).1.Accepted? <==>
                key in kept || |kept| < l.maximumTrackedKeys))
  {
    hide Recent, Consume, Pruned, Knows, TableAfter, History;
    var history, now, later := History(l, events, key, n), events[n].at, events[m].at;
    RunExplained(l, events, key, n);
    RunExplained(l, events, key, m);
    KnownAt(l, TableAfter(l, events, n), key, history, TimeAt(events, n), now);
    KnownAt(l, TableAfter(l, events, m), key, history, TimeAt(events, m), later);
    LimitedBy(l, TableAfter(l, events, n), key, history, now);
    AttemptDecided(l, TableAfter(l, events, m), key, history, later);
    if later >= now + 1000 * RetryAfter(l, Recent(history, now - Window(l))[0], now) {
      WindowPassed(l, history, now, later);
    }
  }

  /** After the wait less than the maximum of accepted attempts is recent. */
  lemma WindowPassed(l: Limits, history: seq<Time>, now: Time, later: Time)
    requires Ascending(history) && Spaced(l, history) && l.maximumAttempts > 0
    requires forall i :: 0 <= i < |history| ==> history[i] <= now
    requires |Recent(history, now - Window(l))| >= l.maximumAttempts
    requires later >= now + 1000 * RetryAfter(l, Recent(history, now - Window(l))[0], now)
    ensures |Recent(history, later - Window(l))| < l.maximumAttempts
  {
    hide Recent;
    var recent := Recent(history, now - Window(l));
    var j := |history| - |recent|;
    assert |recent| <= |history|;
    RecentSuffix(history, now - Window(l));
    assert recent[0] == history[j] && recent[0] in recent;
    RetryAfterExact(l, recent[0], now);
    assert j + l.maximumAttempts < |history| ==> SpacedAt(l, history, j);
    RecentCount(history, later - Window(l), j);
  }

  lemma LimitedBy(l: Limits, m: Table, key: Id, history: seq<Time>, now: Time)
    requires KnowsAt(l, m, key, history, now) && l.maximumAttempts > 0
    requires |Recent(history, now - Window(l))| >= l.maximumAttempts
    ensures Consume(l, m, key, now).1 == RateLimited(RetryAfter(l, Recent(history, now - Window(l))[0], now))
  {
    hide Recent, Pruned;
    PrunedTimes(m, now - Window(l), now - Window(l), key);
  }

  // ---------------------------------------------------------------- the limiter

  class PairingAttemptLimiter {
    const limits: Limits
    var failures: Table

    constructor (maximumAttempts: nat, windowSeconds: nat, maximumTrackedKeys: nat)
      ensures limits == Limits(maximumAttempts, windowSeconds, maximumTrackedKeys) && failures == map[]
    {
      limits, failures := Limits(maximumAttempts, windowSeconds, maximumTrackedKeys), map[];
    }

    method PruneExpired(now: Time)
      modifies this
      ensures failures == Pruned(old(failures), now - Window(limits))
    {
      var validAfter := now - limits.windowSeconds * 1000;
      var todo := failures.Keys;
      ghost var was := failures;
      while todo != {}
        invariant todo <= was.Keys && todo <= failures.Keys <= was.Keys
        invariant forall k {:trigger k in failures} :: k in was ==>
          if k in todo then k in failures && failures[k] == was[k]
          else
            (k in failures <==> Recent(was[k], validAfter) != []) &&
            (k in failures ==> failures[k] == Recent(was[k], validAfter))
        decreases todo
      {
        var key: Id :| key in todo;
        var recent := Filtered(failures[key], validAfter);
        if recent == [] {
          failures := failures - {key};
        } else {
          failures := failures[key := recent];
        }
        todo := todo - {key};
      }
    }

    method ConsumeAttempt(key: Id, now: Time) returns (verdict: Verdict)
      modifies this
      ensures (failures, verdict) == Consume(limits, old(failures), key, now)
    {
      hide Recent, Pruned;
      PruneExpired(now);
      var validAfter := now - limits.windowSeconds * 1000;
      var values := if key in failures then failures[key] else [];
      var recent := Filtered(values, validAfter);
      if |recent| >= limits.maximumAttempts {
        var oldest := if recent == [] then now else recent[0];
        var seconds := (oldest + limits.windowSeconds * 1000 - now + 999) / 1000;
        return RateLimited(if seconds < 1 then 1 else seconds);
      }
      if key !in failures && |failures| >= limits.maximumTrackedKeys {
        return RateLimited(limits.windowSeconds);
      }
      failures := failures[key := recent + [now]];
      return Accepted;
    }

    method ResetKey(key: Id)
      modifies this
      ensures forall now :: failures == Step(limits, old(failures), Reset(key, now))
    {
      failures := failures - {key};
    }

    method TrackedKeyCount(now: Time) returns (n: nat)
      modifies this
      ensures failures == Step(limits, old(failures), CountKeys(now)) && n == |failures|
    {
      PruneExpired(now);
      n := |failures|;
    }
  }

  method Filtered(values: seq<Time>, after: Time) returns (recent: seq<Time>)
    ensures recent == Recent(values, after)
  {
    hide Recent;
    recent := [];
    NoneRecent(after);
    assert values[..0] == [];
    for i := 0 to |values|
      invariant recent == Recent(values[..i], after)
    {
      RecentAppend(values[..i], values[i], after);
      assert values[..i + 1] == values[..i] + [values[i]];
      if values[i] > after {
        recent := recent + [values[i]];
      }
    }
    assert values[..|values|] == values;
  }
}
