/**
 * The 24-hour fire window of an anchored reminder (reminder.py:101-117):
 * building it from the anchor (`Popup.sync`), rolling past entries one day
 * forward and picking the next fire time (the anchored branch of
 * `Popup.sleeper`).
 *
 * Instants are whole seconds; naive `datetime` arithmetic with `timedelta`
 * is plain addition of seconds.
 */
module Schedule {
  import opened Wrappers

  /** `timedelta(days=1)` in seconds. */
  const Day := 86400

  // ---------------------------------------------------------------------
  // Arithmetic helpers

  lemma MulMono(a: int, b: int, i: int)
    requires a <= b && i > 0
    ensures a * i <= b * i
  {
    assert b * i - a * i == (b - a) * i;
  }

  lemma MulStrictMono(a: int, b: int, i: int)
    requires a < b && i > 0
    ensures a * i < b * i
  {
    assert b * i - a * i == (b - a) * i;
  }

  /** From `a * i < b * i` back to `a < b`. */
  lemma MulCancel(a: int, b: int, i: int)
    requires a * i < b * i && i > 0
    ensures a < b
  {
    if b <= a {
      MulMono(b, a, i);
    }
  }

  // ---------------------------------------------------------------------
  // Building the window (Popup.sync)

  /**
   * How many entries `sync` appends: the least count whose multiple of the
   * interval reaches a day, that is ceil(86400 / interval), never below one.
   */
  function WindowLength(interval: int): (n: nat)
    requires interval > 0
    ensures n >= 1
    ensures n * interval >= Day
    ensures (n - 1) * interval < Day
  {
    var x := Day + interval - 1;
    var q := x / interval;
    assert x == q * interval + x % interval;
    assert (q - 1) * interval == q * interval - interval;
    assert q >= 1 by { if q <= 0 { MulMono(q, 0, interval); } }
    q
  }

  /** The entries anchor + 1*interval, ..., anchor + n*interval. */
  function Grid(anchor: int, interval: int, n: nat): (g: seq<int>)
  {
    seq(n, k requires 0 <= k => anchor + (k + 1) * interval)
  }

  /** The list `sync(anchor)` leaves in `self.target_times`. */
  function Window(anchor: int, interval: int): (w: seq<int>)
    requires interval > 0
    ensures |w| == WindowLength(interval)
  {
    Grid(anchor, interval, WindowLength(interval))
  }

  /** The last element of a non-empty list, `list[-1]`. */
  function Last(s: seq<int>): int
    requires |s| > 0
  {
    s[|s| - 1]
  }

  /**
   * The window is non-empty and strictly increasing, every entry is later
   * than the anchor, and its last entry is the first one that reaches
   * anchor + 1 day: all earlier ones lie before it, and the last one
   * overshoots it by less than one interval.
   */
  lemma WindowShape(anchor: int, interval: int)
    requires interval > 0
    ensures var w := Window(anchor, interval);
      |w| >= 1 &&
      (forall k :: 0 <= k < |w| ==> w[k] > anchor) &&
      (forall j, k :: 0 <= j < k < |w| ==> w[j] < w[k]) &&
      (forall k :: 0 <= k < |w| - 1 ==> w[k] < anchor + Day) &&
      anchor + Day <= Last(w) < anchor + Day + interval
  {
    var w := Window(anchor, interval);
    var n := |w|;
    forall k | 0 <= k < n
      ensures w[k] > anchor
    {
      MulStrictMono(0, k + 1, interval);
    }
    forall j, k | 0 <= j < k < n
      ensures w[j] < w[k]
    {
      MulStrictMono(j + 1, k + 1, interval);
    }
    forall k | 0 <= k < n - 1
      ensures w[k] < anchor + Day
    {
      MulMono(k + 1, n - 1, interval);
    }
    assert Last(w) == anchor + n * interval;
    assert n * interval == (n - 1) * interval + interval;
  }

  /**
   * One turn of the loop of `sync`: while it has fewer entries than the
   * window, its last entry is still before anchor + 1 day, and appending
   * last + interval gives the next grid prefix.
   */
  lemma SyncStep(anchor: int, interval: int, m: nat)
    requires interval > 0 && 1 <= m
    ensures Last(Grid(anchor, interval, m)) < anchor + Day <==> m < WindowLength(interval)
    ensures Grid(anchor, interval, m) + [Last(Grid(anchor, interval, m)) + interval]
         == Grid(anchor, interval, m + 1)
  {
    var n := WindowLength(interval);
    assert Last(Grid(anchor, interval, m)) == anchor + m * interval;
    if m < n {
      MulMono(m, n - 1, interval);
    } else {
      MulMono(n, m, interval);
    }
    assert (m + 1) * interval == m * interval + interval;
  }

  /**
   * With a non-positive interval the loop of `sync` never stops: however
   * many entries it has appended, the last is still before anchor + 1 day.
   */
  lemma SyncNeverStops(anchor: int, interval: int, n: nat)
    requires interval <= 0 && n >= 1
    ensures Last(Grid(anchor, interval, n)) < anchor + Day
  {
    assert Last(Grid(anchor, interval, n)) == anchor + n * interval;
    if interval < 0 {
      MulMono(0, n, -interval);
      assert n * interval == -(n * -interval);
    }
  }

  /**
   * An interval that does not divide a day makes the last entry fall after
   * anchor + 1 day: seven hours give anchor + 28 hours.
   */
  lemma WindowOvershootsDay(anchor: int)
    ensures Last(Window(anchor, 7 * 3600)) == anchor + 28 * 3600
    ensures Last(Window(anchor, 7 * 3600)) > anchor + Day
  {
    assert WindowLength(7 * 3600) == 4;
  }

  // ---------------------------------------------------------------------
  // Rolling the window forward (sleeper, reminder.py:116)

  /**
   * `[i + timedelta(days=1) if i < now else i for i in target_times]`.
   */
  function Roll(times: seq<int>, now: int): (r: seq<int>)
    ensures |r| == |times|
    ensures forall k :: 0 <= k < |times| && times[k] < now ==> r[k] == times[k] + Day
    ensures forall k :: 0 <= k < |times| && times[k] >= now ==> r[k] == times[k]
  {
    if times == [] then []
    else [if times[0] < now then times[0] + Day else times[0]] + Roll(times[1..], now)
  }

  predicate Sorted(s: seq<int>)
  {
    forall j, k :: 0 <= j < k < |s| ==> s[j] <= s[k]
  }

  /**
   * Rolling does not re-sort: once the first entry of a window of two or
   * more entries is past, it moves behind the second.
   */
  lemma RollUnsortsWindow(anchor: int, interval: int)
    requires 0 < interval < Day
    ensures !Sorted(Roll(Window(anchor, interval), anchor + interval + 1))
  {
    var w := Window(anchor, interval);
    var r := Roll(w, anchor + interval + 1);
    assert WindowLength(interval) >= 2;
    assert w[0] == anchor + interval && w[1] == anchor + 2 * interval;
    assert r[0] > r[1];
  }

  /** `x` is the grid slot `g` moved forward by a whole number of days. */
  predicate DaysLater(x: int, g: int)
  {
    x >= g && (x - g) % Day == 0
  }

  /**
   * The shape every list of fire times keeps: the window built from `anchor`,
   * each entry possibly moved forward by whole days. Rolling never changes a
   * fire time's time of day, so the schedule does not drift.
   */
  predicate OnGrid(times: seq<int>, anchor: int, interval: int)
    requires interval > 0
  {
    var w := Window(anchor, interval);
    |times| == |w| && forall k :: 0 <= k < |times| ==> DaysLater(times[k], w[k])
  }

  lemma WindowOnGrid(anchor: int, interval: int)
    requires interval > 0
    ensures OnGrid(Window(anchor, interval), anchor, interval)
  {
  }

  lemma {:induction false} RollKeepsGrid(times: seq<int>, anchor: int, interval: int, now: int)
    requires interval > 0
    requires OnGrid(times, anchor, interval)
    ensures OnGrid(Roll(times, now), anchor, interval)
  {
    var w := Window(anchor, interval);
    var r := Roll(times, now);
    forall k | 0 <= k < |r|
      ensures DaysLater(r[k], w[k])
    {
      assert DaysLater(times[k], w[k]);
      if times[k] < now {
        assert r[k] - w[k] == (times[k] - w[k]) + Day;
      }
    }
  }

  // ---------------------------------------------------------------------
  // Picking the next fire time (sleeper, reminder.py:117)

  /** `[i for i in times if i > now]`. */
  function Later(times: seq<int>, now: int): (r: seq<int>)
    ensures |r| <= |times|
    ensures forall x :: x in r <==> x in times && x > now
  {
    if times == [] then []
    else if times[0] > now then [times[0]] + Later(times[1..], now)
    else Later(times[1..], now)
  }

  /** Python's `min` of a non-empty list. */
  function Min(s: seq<int>): (m: int)
    requires |s| > 0
    ensures m in s
    ensures forall x :: x in s ==> m <= x
  {
    if |s| == 1 then s[0]
    else
      var rest := Min(s[1..]);
      assert forall x :: x in s ==> x == s[0] || x in s[1..];
      if s[0] <= rest then s[0] else rest
  }

  /**
   * `min([i for i in times if i > now])`. `None` stands for the
   * `ValueError` that `min` raises on an empty list; the code does not
   * rebuild the window in that case.
   */
  function Select(times: seq<int>, now: int): (r: Option<int>)
    ensures r.None? <==> forall x :: x in times ==> x <= now
    ensures r.Some? ==> r.value in times && r.value > now
    ensures r.Some? ==> forall x :: x in times && x > now ==> r.value <= x
  {
    var later := Later(times, now);
    if later == [] then None else Some(Min(later))
  }

  /**
   * After rolling, no later entry exists exactly when each entry either
   * equals `now` or lies a full day or more in the past: then `min` raises.
   */
  lemma SelectFailsIff(times: seq<int>, now: int)
    ensures Select(Roll(times, now), now).None? <==>
      forall k :: 0 <= k < |times| ==> times[k] == now || times[k] + Day <= now
  {
    var r := Roll(times, now);
    if Select(r, now).None? {
      forall k | 0 <= k < |times|
        ensures times[k] == now || times[k] + Day <= now
      {
        assert r[k] in r;
      }
    } else {
      var t := Select(r, now).value;
      var k :| 0 <= k < |r| && r[k] == t;
      assert !(times[k] == now || times[k] + Day <= now);
    }
  }

  /** The index, counted from 1, of the first grid slot after `now`. */
  function NextSlot(anchor: int, interval: int, now: int): (k: int)
    requires interval > 0
    ensures k >= 1
    ensures anchor + k * interval > now
    ensures anchor + (k - 1) * interval <= now || k == 1
  {
    if now < anchor then 1
    else
      var q := (now - anchor) / interval;
      assert now - anchor == q * interval + (now - anchor) % interval;
      assert (q + 1) * interval == q * interval + interval;
      assert q >= 0 by { if q < 0 { MulMono(q, -1, interval); } }
      q + 1
  }

  /** The first slot after `now` is inside the window when `now` is before its end. */
  lemma SlotInWindow(anchor: int, interval: int, now: int)
    requires interval > 0
    requires now < Last(Window(anchor, interval))
    ensures NextSlot(anchor, interval, now) <= |Window(anchor, interval)|
  {
    var n := |Window(anchor, interval)|;
    var k := NextSlot(anchor, interval, now);
    assert Last(Window(anchor, interval)) == anchor + n * interval;
    if k > 1 {
      assert anchor + (k - 1) * interval <= now;
      MulCancel(k - 1, n, interval);
    }
  }

  /** After the roll, no entry later than `now` comes before the first slot after `now`. */
  lemma SlotIsFirstLater(anchor: int, interval: int, now: int, j: nat)
    requires interval > 0
    requires now < Last(Window(anchor, interval))
    requires j < |Window(anchor, interval)|
    requires Roll(Window(anchor, interval), now)[j] > now
    ensures Roll(Window(anchor, interval), now)[j] >= anchor + NextSlot(anchor, interval, now) * interval
  {
    var w := Window(anchor, interval);
    var n := |w|;
    var k := NextSlot(anchor, interval, now);
    assert Last(w) == anchor + n * interval;
    if w[j] < now {
      // A rolled entry lands beyond the window's last entry.
      MulMono(1, j + 1, interval);
      assert n * interval == (n - 1) * interval + interval;
      if k > 1 {
        assert anchor + (k - 1) * interval <= now;
        MulCancel(k - 1, n, interval);
      }
      MulMono(k, n, interval);
    } else if k > 1 {
      assert anchor + (k - 1) * interval <= now < anchor + (j + 1) * interval;
      MulCancel(k - 1, j + 1, interval);
      MulMono(k, j + 1, interval);
    } else {
      MulMono(k, j + 1, interval);
    }
  }

  /** An entry after `now` that no other entry after `now` undercuts is what `Select` picks. */
  lemma SelectLeast(times: seq<int>, now: int, i: nat)
    requires i < |times| && times[i] > now
    requires forall j :: 0 <= j < |times| && times[j] > now ==> times[j] >= times[i]
    ensures Select(times, now) == Some(times[i])
  {
    assert times[i] in times;
    var s := Select(times, now).value;
    var j :| 0 <= j < |times| && times[j] == s;
  }

  /**
   * Right after `sync`, and as long as `now` is before the window's last
   * entry, the next fire time is the first grid slot after `now`, whatever
   * has been rolled.
   */
  lemma NextAfterSync(anchor: int, interval: int, now: int)
    requires interval > 0
    requires now < Last(Window(anchor, interval))
    ensures Select(Roll(Window(anchor, interval), now), now)
         == Some(anchor + NextSlot(anchor, interval, now) * interval)
  {
    var r := Roll(Window(anchor, interval), now);
    var k := NextSlot(anchor, interval, now);
    SlotInWindow(anchor, interval, now);
    assert r[k - 1] == anchor + k * interval;
    forall j | 0 <= j < |r| && r[j] > now
      ensures r[j] >= r[k - 1]
    {
      SlotIsFirstLater(anchor, interval, now, j);
    }
    SelectLeast(r, now, k - 1);
  }

  /**
   * An anchored reminder at 09:00 with a 30-second interval, asked at
   * 09:00:10, fires next at 09:00:30.
   */
  lemma NineOClockExample(today: int)
    ensures var anchor := today + 9 * 3600;
      Select(Roll(Window(anchor, 30), anchor + 10), anchor + 10) == Some(anchor + 30)
  {
    var anchor := today + 9 * 3600;
    WindowShape(anchor, 30);
    NextAfterSync(anchor, 30, anchor + 10);
    assert NextSlot(anchor, 30, anchor + 10) == 1;
  }
}
