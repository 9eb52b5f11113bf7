/**
 * The `Popup` thread of reminder.py (lines 75-142): one reminder, its
 * interval, its optional window of fire times, and the supervision of the
 * notification process it starts at each fire time.
 */
module Reminder {
  import opened Wrappers
  import opened Sequences
  import opened StartTime
  import opened Schedule
  import opened ProcessSupervisor

  /** `min()` of an empty list raises `ValueError`: no later entry was left. */
  datatype ScheduleError = NoLaterEntry

  /**
   * Whether `sync` can finish: in anchored mode the interval in seconds
   * must be positive, otherwise the loop of `sync` never stops (lemma
   * `SyncNeverStops`).
   */
  predicate SyncTerminates(interval: int, unit: string, startTime: Option<string>, today: int)
  {
    var a := StartAnchor(startTime, today);
    a.Success? && a.value.Some? ==> IntervalSeconds(interval, unit) > 0
  }

  class Popup {
    const event: Event
    const message: string
    /** `self.interval`, in seconds. */
    const interval: int
    /** `self.target_times`: `None` in unanchored mode. */
    var targetTimes: Option<seq<int>>
    /** The instant the window was built from. */
    ghost var anchor: int

    /**
     * In anchored mode the fire times are the window built from the anchor,
     * each entry moved forward by some whole number of days.
     */
    ghost predicate Valid()
      reads this
    {
      targetTimes.Some? ==> interval > 0 && OnGrid(targetTimes.value, anchor, interval)
    }

    /** `if self.target_times:` — a non-empty list selects anchored mode. */
    predicate Anchored()
      reads this
    {
      targetTimes.Some? && targetTimes.value != []
    }

    /**
     * `Popup.__init__` (reminder.py:80-99): converts the interval to
     * seconds, then either builds the window from today's start time or
     * leaves the reminder unanchored. A malformed start time raises.
     */
    static method Create(event: Event, message: string, interval: int, unit: string,
                         startTime: Option<string>, today: int)
      returns (r: Result<Popup, StartTimeError>)
      requires SyncTerminates(interval, unit, startTime, today)
      ensures r.Failure? <==> StartAnchor(startTime, today).Failure?
      ensures r.Failure? ==> r.error == StartAnchor(startTime, today).error
      ensures r.Success? ==> fresh(r.value) && r.value.Valid()
      ensures r.Success? ==> r.value.event == event && r.value.message == message
      ensures r.Success? ==> r.value.interval == IntervalSeconds(interval, unit)
      ensures r.Success? ==> var anchor := StartAnchor(startTime, today).value;
        r.value.targetTimes ==
          if anchor.Some? then Some(Window(anchor.value, IntervalSeconds(interval, unit))) else None
    {
      var seconds := IntervalSeconds(interval, unit);
      match StartAnchor(startTime, today)
      case Failure(e) =>
        r := Failure(e);
      case Success(anchor) =>
        var p := new Popup(event, message, seconds, anchor);
        r := Success(p);
    }

    /**
     * The attribute assignments of `__init__`, given the interval in
     * seconds and the parsed start instant, if any.
     */
    constructor (event: Event, message: string, interval: int, initialTime: Option<int>)
      requires initialTime.Some? ==> interval > 0
      ensures Valid()
      ensures this.event == event && this.message == message && this.interval == interval
      ensures targetTimes == if initialTime.Some? then Some(Window(initialTime.value, interval)) else None
    {
      this.event := event;
      this.message := message;
      this.interval := interval;
      targetTimes := None;
      anchor := 0;
      new;
      if initialTime.Some? {
        Sync(initialTime.value);
      }
    }

    /**
     * `Popup.sync` (reminder.py:101-107): appends initial_time + k*interval
     * until an entry reaches initial_time + 1 day.
     */
    method Sync(initialTime: int)
      requires interval > 0
      modifies this
      ensures Valid() && anchor == initialTime
      ensures targetTimes == Some(Window(initialTime, interval))
    {
      targetTimes := Some([initialTime + interval]);
      assert targetTimes.value == Grid(initialTime, interval, 1);
      while Last(targetTimes.value) < initialTime + Day
        invariant targetTimes.Some?
        invariant 1 <= |targetTimes.value| <= WindowLength(interval)
        invariant targetTimes.value == Grid(initialTime, interval, |targetTimes.value|)
        decreases WindowLength(interval) - |targetTimes.value|
      {
        SyncStep(initialTime, interval, |targetTimes.value|);
        targetTimes := Some(targetTimes.value + [Last(targetTimes.value) + interval]);
      }
      SyncStep(initialTime, interval, |targetTimes.value|);
      assert |targetTimes.value| == WindowLength(interval);
      assert targetTimes.value == Window(initialTime, interval);
      anchor := initialTime;
      WindowOnGrid(initialTime, interval);
    }

    /**
     * The scheduling half of `Popup.sleeper` (reminder.py:109-119): the
     * next fire time at instant `now`. In anchored mode the past entries
     * are first rolled one day forward, and the result is the least entry
     * after `now`; with none left, `min` raises. Unanchored, it is
     * `now + interval`.
     */
    method Sleeper(now: int) returns (target: Result<int, ScheduleError>)
      requires Valid()
      modifies this`targetTimes
      ensures Valid()
      ensures old(Anchored()) ==> targetTimes == Some(Roll(old(targetTimes).value, now))
      ensures old(Anchored()) ==> match Select(targetTimes.value, now)
        case Some(t) => target == Success(t)
        case None => target == Failure(NoLaterEntry)
      ensures !old(Anchored()) ==> targetTimes == old(targetTimes) && target == Success(now + interval)
    {
      if Anchored() {
        RollKeepsGrid(targetTimes.value, anchor, interval, now);
        targetTimes := Some(Roll(targetTimes.value, now));
        var next := Select(targetTimes.value, now);
        if next.Some? {
          target := Success(next.value);
        } else {
          target := Failure(NoLaterEntry);
        }
      } else {
        target := Success(now + interval);
      }
    }

    /**
     * The poll loop of `Popup.run` (reminder.py:129-135): at most 70 ticks,
     * each a falsy `poll()`, an unset event and a one-second `wait`; it
     * returns the final `counter`.
     */
    method PollLoop(child: Child) returns (counter: nat)
      requires child.polls == 0 && child.waits == 0 && child.log == []
      modifies child, event
      ensures counter == LoopTicks(child.status, event.observed, old(event.checks), 0)
      ensures child.polls == LoopPolls(counter) && child.waits == counter
      ensures child.log == TickTrace(counter) + (if counter < MaxTicks then [Polled] else [])
      ensures event.checks == old(event.checks) + counter
        + (if counter < MaxTicks && !Truthy(child.status(counter)) then 1 else 0)
    {
      ghost var e0, status, cancelled := event.checks, child.status, event.observed;
      counter := 0;
      var stopped := false;
      while counter < MaxTicks && !stopped
        invariant counter <= MaxTicks
        invariant stopped ==> counter < MaxTicks
        invariant child.polls == counter + (if stopped then 1 else 0)
        invariant child.waits == counter
        invariant !stopped ==> event.checks == e0 + counter
        invariant stopped ==> event.checks == e0 + counter + (if Truthy(status(counter)) then 0 else 1)
        invariant child.log == TickTrace(counter) + (if stopped then [Polled] else [])
        invariant forall j :: 0 <= j < counter ==> Quiet(status, cancelled, e0, j)
        invariant stopped ==> !Quiet(status, cancelled, e0, counter)
        decreases MaxTicks - counter, if stopped then 0 else 1
      {
        var code := child.Poll();
        if Truthy(code) {
          stopped := true;
        } else {
          var isSet := event.IsSet();
          if isSet {
            stopped := true;
          } else {
            assert Quiet(status, cancelled, e0, counter);
            counter := counter + 1;
            var _ := child.Wait(PollWait);
            assert child.log == TickTrace(counter - 1) + [Polled, Waited(PollWait)];
          }
        }
      }
      LoopTicksUnique(status, cancelled, e0, 0, counter);
    }

    /**
     * The escalation in `Popup.run` (reminder.py:137-142): a final
     * `poll()`; if it is falsy, `terminate`, a three-second `wait`, and
     * `kill` if that wait times out.
     */
    method Escalate(child: Child) returns (terminated: bool, killed: bool)
      modifies child
      ensures terminated == !Truthy(child.status(old(child.polls)))
      ensures killed == (terminated && child.expires(old(child.waits)))
      ensures child.polls == old(child.polls) + 1
      ensures child.waits == old(child.waits) + (if terminated then 1 else 0)
      ensures child.log == old(child.log) + Escalation(terminated, killed)
    {
      var code := child.Poll();
      terminated := !Truthy(code);
      killed := false;
      if terminated {
        child.Terminate();
        var expired := child.Wait(GraceWait);
        if expired {
          child.Kill();
          killed := true;
        }
      }
    }

    /**
     * The supervision in `Popup.run` (reminder.py:129-142) of the child
     * just started for this firing: the poll loop, then the escalation.
     */
    method Supervise(child: Child) returns (o: Outcome)
      requires child.polls == 0 && child.waits == 0 && child.log == []
      modifies child, event
      ensures o == Supervision(child.status, child.expires, event.observed, old(event.checks))
      ensures child.log == Trace(o)
      ensures child.polls == LoopPolls(o.ticks) + 1
      ensures child.waits == o.ticks + (if o.terminated then 1 else 0)
      ensures event.checks == old(event.checks) + o.ticks
        + (if o.ticks < MaxTicks && !Truthy(child.status(o.ticks)) then 1 else 0)
    {
      var counter := PollLoop(child);
      var terminated, killed := Escalate(child);
      o := Outcome(counter, terminated, killed);
    }
  }

  /** A ten-minute reminder without a start time fires 600 s after each call. */
  method TenMinuteReminder(event: Event, now: int)
  {
    var r := Popup.Create(event, "Stretch", 10, "minutes", None, 0);
    assert r.Success?;
    var p := r.value;
    var first := p.Sleeper(now);
    assert first == Success(now + 600);
    var second := p.Sleeper(now + 600);
    assert second == Success(now + 1200);
  }

  /** An interval of 30 seconds from "09:00", asked at 09:00:10, fires at 09:00:30. */
  method NineOClockReminder(event: Event, today: int)
  {
    assert "09:00" == FormatClock(9, 0);
    ParseFormattedClock(9, 0, today);
    var anchor := today + 9 * SecondsPerHour;
    var r := Popup.Create(event, "Stand up", 30, "seconds", Some("09:00"), today);
    assert r.Success?;
    var p := r.value;
    var next := p.Sleeper(anchor + 10);
    NineOClockExample(today);
    assert next == Success(anchor + 30);
  }

  /** A start time that is not "HH:MM" makes construction fail. */
  method MalformedStartTime(event: Event, today: int)
  {
    assert Count("9", ':') == 0 && Count("9:00:00", ':') == 2;
    var r := Popup.Create(event, "Drink", 5, "minutes", Some("9"), today);
    assert r == Failure(WrongFieldCount(1));
    r := Popup.Create(event, "Drink", 5, "minutes", Some("9:00:00"), today);
    assert r == Failure(WrongFieldCount(3));
  }
}
