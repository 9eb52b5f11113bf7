/**
 * The supervision of one notification process in `Popup.run`
 * (reminder.py:129-142): a poll loop of at most 70 one-second ticks, then
 * `terminate`, a three-second grace wait, and `kill` if that wait expires.
 *
 * The child process and the shared event are abstract: each answers its
 * k-th query from a fixed script, so every interleaving with the real
 * process and with a concurrent `event.set()` is some script.
 */
module ProcessSupervisor {
  import opened Wrappers
  import opened Sequences

  /** The tick budget of the poll loop, `60+10`. */
  const MaxTicks := 70
  /** The timeout of each `pid.wait` inside the poll loop. */
  const PollWait := 1
  /** The grace period after `pid.terminate()`. */
  const GraceWait := 3

  /**
   * The truthiness of `pid.poll()`: `None` while the child runs, its exit
   * code once it has finished. An exit code of 0 is falsy too.
   */
  predicate Truthy(code: Option<int>)
  {
    code.Some? && code.value != 0
  }

  /** What the parent does to its child, in order. */
  datatype Action = Polled | Waited(timeout: nat) | Terminated | Killed

  /** A `Popen` handle as the parent sees it. */
  class Child {
    /** The result of the k-th call of `poll()`, counted from 0. */
    const status: nat -> Option<int>
    /** Whether the k-th call of `wait(timeout)` raises `TimeoutExpired`. */
    const expires: nat -> bool
    var polls: nat
    var waits: nat
    var log: seq<Action>

    constructor (status: nat -> Option<int>, expires: nat -> bool)
      ensures this.status == status && this.expires == expires
      ensures polls == 0 && waits == 0 && log == []
    {
      this.status := status;
      this.expires := expires;
      polls, waits, log := 0, 0, [];
    }

    method Poll() returns (code: Option<int>)
      modifies this
      ensures code == status(old(polls))
      ensures polls == old(polls) + 1 && waits == old(waits)
      ensures log == old(log) + [Polled]
    {
      code := status(polls);
      polls := polls + 1;
      log := log + [Polled];
    }

    method Wait(timeout: nat) returns (expired: bool)
      modifies this
      ensures expired == expires(old(waits))
      ensures waits == old(waits) + 1 && polls == old(polls)
      ensures log == old(log) + [Waited(timeout)]
    {
      expired := expires(waits);
      waits := waits + 1;
      log := log + [Waited(timeout)];
    }

    method Terminate()
      modifies this
      ensures polls == old(polls) && waits == old(waits)
      ensures log == old(log) + [Terminated]
    {
      log := log + [Terminated];
    }

    method Kill()
      modifies this
      ensures polls == old(polls) && waits == old(waits)
      ensures log == old(log) + [Killed]
    {
      log := log + [Killed];
    }
  }

  /** The shared `threading.Event` as one thread sees it. */
  class Event {
    /** The result of the k-th call of `is_set()`, counted from 0. */
    const observed: nat -> bool
    var checks: nat

    constructor (observed: nat -> bool)
      ensures this.observed == observed && checks == 0
    {
      this.observed := observed;
      checks := 0;
    }

    method IsSet() returns (isSet: bool)
      modifies this
      ensures isSet == observed(old(checks))
      ensures checks == old(checks) + 1
    {
      isSet := observed(checks);
      checks := checks + 1;
    }
  }

  // ---------------------------------------------------------------------
  // What the supervision decides, as a function of the scripts

  /**
   * Tick `k` of the poll loop goes ahead: the k-th poll is falsy and the
   * event check of that tick (the `e0 + k`-th overall) sees no cancellation.
   */
  predicate Quiet(status: nat -> Option<int>, cancelled: nat -> bool, e0: nat, k: nat)
  {
    !Truthy(status(k)) && !cancelled(e0 + k)
  }

  /**
   * The value of `counter` when the poll loop ends, starting from tick `k`:
   * it counts quiet ticks and stops at the budget or at the first tick that
   * is not quiet.
   */
  function LoopTicks(status: nat -> Option<int>, cancelled: nat -> bool, e0: nat, k: nat): (t: nat)
    requires k <= MaxTicks
    ensures k <= t <= MaxTicks
    ensures forall j :: k <= j < t ==> Quiet(status, cancelled, e0, j)
    ensures t < MaxTicks ==> !Quiet(status, cancelled, e0, t)
    decreases MaxTicks - k
  {
    if k == MaxTicks || !Quiet(status, cancelled, e0, k) then k
    else LoopTicks(status, cancelled, e0, k + 1)
  }

  /**
   * The end of the poll loop is determined by its description: a tick count
   * within budget, all ticks before it quiet, and the tick it stopped at
   * (if within budget) not quiet.
   */
  lemma {:induction false} LoopTicksUnique(status: nat -> Option<int>, cancelled: nat -> bool, e0: nat, k: nat, t: nat)
    requires k <= t <= MaxTicks
    requires forall j :: k <= j < t ==> Quiet(status, cancelled, e0, j)
    requires t < MaxTicks ==> !Quiet(status, cancelled, e0, t)
    ensures LoopTicks(status, cancelled, e0, k) == t
    decreases t - k
  {
    if k < t {
      assert Quiet(status, cancelled, e0, k);
      LoopTicksUnique(status, cancelled, e0, k + 1, t);
    }
  }

  /**
   * How many times the loop calls `poll()` when it ends after `ticks` ticks:
   * once per tick, and once more for the check that stopped it early.
   */
  function LoopPolls(ticks: nat): nat
  {
    if ticks < MaxTicks then ticks + 1 else ticks
  }

  /** How one supervision ends: ticks spent, whether terminate and kill were issued. */
  datatype Outcome = Outcome(ticks: nat, terminated: bool, killed: bool)

  /**
   * The decision of reminder.py:129-142 for a freshly started child and an
   * event whose next check is its `e0`-th.
   */
  function Supervision(status: nat -> Option<int>, expires: nat -> bool, cancelled: nat -> bool, e0: nat): (o: Outcome)
    ensures o.ticks <= MaxTicks
    ensures o.killed ==> o.terminated
  {
    var t := LoopTicks(status, cancelled, e0, 0);
    var terminated := !Truthy(status(LoopPolls(t)));
    Outcome(t, terminated, terminated && expires(t))
  }

  /** The actions of `n` quiet ticks: a poll and a one-second wait each. */
  function TickTrace(n: nat): seq<Action>
  {
    if n == 0 then [] else TickTrace(n - 1) + [Polled, Waited(PollWait)]
  }

  /** What follows the poll loop: the final poll, then terminate and kill as decided. */
  function Escalation(terminated: bool, killed: bool): seq<Action>
  {
    [Polled]
    + (if terminated then [Terminated, Waited(GraceWait)] else [])
    + (if killed then [Killed] else [])
  }

  /** Everything the parent does to the child during one supervision. */
  function Trace(o: Outcome): seq<Action>
  {
    TickTrace(o.ticks)
    + (if o.ticks < MaxTicks then [Polled] else [])
    + Escalation(o.terminated, o.killed)
  }

  lemma {:induction false} TickTraceShape(n: nat)
    ensures Count(TickTrace(n), Waited(PollWait)) == n
    ensures Count(TickTrace(n), Polled) == n
    ensures Terminated !in TickTrace(n) && Killed !in TickTrace(n)
  {
    if n > 0 {
      var tick := [Polled, Waited(PollWait)];
      assert tick[1..] == [Waited(PollWait)] && tick[1..][1..] == [];
      assert Count(tick[1..][1..], Polled) == 0 && Count(tick[1..][1..], Waited(PollWait)) == 0;
      assert Count(tick[1..], Polled) == 0 && Count(tick[1..], Waited(PollWait)) == 1;
      TickTraceShape(n - 1);
      CountAppend(TickTrace(n - 1), [Polled, Waited(PollWait)], Waited(PollWait));
      CountAppend(TickTrace(n - 1), [Polled, Waited(PollWait)], Polled);
    }
  }

  /** What follows the quiet ticks: the stopping poll, if any, then the escalation. */
  function Tail(o: Outcome): seq<Action>
  {
    (if o.ticks < MaxTicks then [Polled] else []) + Escalation(o.terminated, o.killed)
  }

  lemma TailShape(o: Outcome)
    requires o.killed ==> o.terminated
    ensures var e := Tail(o);
      Waited(PollWait) !in e &&
      (Terminated in e <==> o.terminated) &&
      (Killed in e <==> o.killed) &&
      (o.killed ==> |e| >= 3 && e[|e| - 3..] == [Terminated, Waited(GraceWait), Killed]) &&
      (!o.killed ==> |e| >= 1 && e[|e| - 1] != Killed)
  {
    var e := Tail(o);
    var x := Escalation(o.terminated, o.killed);
    if o.killed {
      assert x == [Polled, Terminated, Waited(GraceWait), Killed];
    } else if o.terminated {
      assert x == [Polled, Terminated, Waited(GraceWait)];
    } else {
      assert x == [Polled];
    }
    if o.ticks < MaxTicks {
      assert e == [Polled] + x;
    } else {
      assert e == x;
    }
  }

  /**
   * The order of escalation: at most 70 one-second waits, terminate issued
   * exactly when the outcome says so, and a kill only ever as the last
   * action, right after terminate and the three-second grace wait.
   */
  lemma EscalationOrder(o: Outcome)
    requires o.ticks <= MaxTicks && (o.killed ==> o.terminated)
    ensures Count(Trace(o), Waited(PollWait)) == o.ticks <= MaxTicks
    ensures Terminated in Trace(o) <==> o.terminated
    ensures Killed in Trace(o) <==> o.killed
    ensures o.killed ==> Trace(o)[|Trace(o)| - 3..] == [Terminated, Waited(GraceWait), Killed]
    ensures !o.killed ==> Trace(o)[|Trace(o)| - 1] != Killed
  {
    var head := TickTrace(o.ticks);
    var tail := Tail(o);
    assert Trace(o) == head + tail;
    TickTraceShape(o.ticks);
    TailShape(o);
    CountAppend(head, tail, Waited(PollWait));
    CountAbsent(tail, Waited(PollWait));
    assert Trace(o)[|Trace(o)| - 1] == tail[|tail| - 1];
    if o.killed {
      assert Trace(o)[|Trace(o)| - 3..] == tail[|tail| - 3..];
    }
  }

  /**
   * A child that never exits with a non-zero code, including one that
   * exits cleanly with 0, is always sent `terminate`, and the loop only
   * ends early because of cancellation.
   */
  lemma CleanExitIsTerminated(status: nat -> Option<int>, expires: nat -> bool, cancelled: nat -> bool, e0: nat)
    requires forall k: nat :: !Truthy(status(k))
    ensures var o := Supervision(status, expires, cancelled, e0);
      o.terminated && (o.ticks < MaxTicks ==> cancelled(e0 + o.ticks))
  {
    var t := LoopTicks(status, cancelled, e0, 0);
    assert !Truthy(status(t)) && !Truthy(status(LoopPolls(t)));
  }

  /**
   * A child still running after every poll, with no cancellation, uses the
   * whole budget, is sent `terminate`, and is killed exactly when the grace
   * wait expires.
   */
  lemma HungChildIsEscalated(status: nat -> Option<int>, expires: nat -> bool, cancelled: nat -> bool, e0: nat)
    requires forall k: nat :: status(k) == None
    requires forall k: nat :: !cancelled(k)
    ensures var o := Supervision(status, expires, cancelled, e0);
      o.ticks == MaxTicks && o.terminated && o.killed == expires(MaxTicks)
  {
    var t := LoopTicks(status, cancelled, e0, 0);
    assert status(t) == None && !cancelled(e0 + t);
    assert status(LoopPolls(t)) == None;
  }

  /**
   * A child that runs through its first `j` polls and then reports a
   * non-zero exit code, with no cancellation, ends the loop after `j`
   * ticks and is neither terminated nor killed.
   */
  lemma FailedChildIsLeftAlone(status: nat -> Option<int>, expires: nat -> bool, cancelled: nat -> bool, e0: nat, j: nat, code: int)
    requires j <= MaxTicks && code != 0
    requires forall k: nat :: k < j ==> status(k) == None
    requires forall k: nat :: k >= j ==> status(k) == Some(code)
    requires forall k: nat :: !cancelled(k)
    ensures var o := Supervision(status, expires, cancelled, e0);
      o.ticks == j && !o.terminated && !o.killed
  {
    var t := LoopTicks(status, cancelled, e0, 0);
    assert !Quiet(status, cancelled, e0, j) by {
      assert status(j) == Some(code);
    }
    assert !cancelled(e0 + t);
    assert t == j;
    assert status(LoopPolls(t)) == Some(code);
  }

  /**
   * Cancellation seen at the first check while the child still runs ends
   * the loop at once, but the escalation still runs: terminate is sent and
   * kill follows if the grace wait expires.
   */
  lemma CancelledChildIsStillEscalated(status: nat -> Option<int>, expires: nat -> bool, cancelled: nat -> bool, e0: nat)
    requires status(0) == None && status(1) == None
    requires cancelled(e0)
    ensures var o := Supervision(status, expires, cancelled, e0);
      o.ticks == 0 && o.terminated && o.killed == expires(0)
  {
  }
}
