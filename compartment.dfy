/**
 * One compartment of the locker: its door and content state, the door
 * switches it reads and the lock coils it drives. `Open` energises the
 * locks, polls the door switches a bounded number of times and always
 * releases the locks again.
 */
module Compartments {
  import opened Common

  datatype DoorStatus = Closed | Open | Error
  datatype ContentStatus = Present | Empty | Unknown

  /** An I/O line: the port expander it sits on and its pin number there. */
  datatype Pin = Pin(expander: nat, line: nat)

  /** What every input line reads at one instant: true for high (switch released). */
  type Levels = Pin -> bool

  /** The readings taken at successive polls, poll k reading `trace(k)`. */
  type Trace = nat -> Levels

  /** The longest a lock may stay energised, in seconds. */
  const MaximumOnTime: int := 5

  /** The door switches are checked every half second: two polls per second of on-time. */
  const PollsPerSecond: int := 2

  /** A door reads open only if none of its switch inputs reads low. */
  predicate DoorReadsOpen(inputs: seq<Pin>, levels: Levels)
  {
    forall i :: 0 <= i < |inputs| ==> levels(inputs[i])
  }

  predicate AllLow(levels: seq<bool>)
  {
    forall i :: 0 <= i < |levels| ==> !levels[i]
  }

  /**
   * How many times `open(on_time)` may check the door: the on-time is first
   * cut to the maximum, then divided by the half-second check interval.
   */
  function PollBudget(onTime: int): (polls: nat)
    ensures polls <= MaximumOnTime * PollsPerSecond
    ensures onTime >= MaximumOnTime ==> polls == MaximumOnTime * PollsPerSecond
    ensures onTime <= 0 ==> polls == 0
  {
    var clamped := if onTime > MaximumOnTime then MaximumOnTime else onTime;
    if clamped > 0 then clamped * PollsPerSecond else 0
  }

  /** The number of polls made from poll j on: up to and including the first open reading, at most `budget`. */
  function PollsFrom(inputs: seq<Pin>, trace: Trace, j: nat, budget: nat): nat
    decreases budget - j
  {
    if j >= budget then budget
    else if DoorReadsOpen(inputs, trace(j)) then j + 1
    else PollsFrom(inputs, trace, j + 1, budget)
  }

  /** The number of polls `open(on_time)` makes. */
  function OpenPolls(inputs: seq<Pin>, onTime: int, trace: Trace): nat
  {
    PollsFrom(inputs, trace, 0, PollBudget(onTime))
  }

  /** What `open(on_time)` returns: the door reading taken after the locks are released. */
  predicate OpenReports(inputs: seq<Pin>, onTime: int, trace: Trace)
  {
    DoorReadsOpen(inputs, trace(OpenPolls(inputs, onTime, trace)))
  }

  lemma {:induction false} PollsFromMeaning(inputs: seq<Pin>, trace: Trace, j: nat, budget: nat)
    requires j <= budget
    requires forall k :: 0 <= k < j ==> !DoorReadsOpen(inputs, trace(k))
    ensures var p := PollsFrom(inputs, trace, j, budget);
      && j <= p <= budget
      && (forall k :: 0 <= k < p - 1 ==> !DoorReadsOpen(inputs, trace(k)))
      && (p > 0 ==> p == budget || DoorReadsOpen(inputs, trace(p - 1)))
      && (j < budget ==> p > j)
    decreases budget - j
  {
    if j < budget && !DoorReadsOpen(inputs, trace(j)) {
      PollsFromMeaning(inputs, trace, j + 1, budget);
    }
  }

  /**
   * `open` polls at most `PollBudget(onTime)` times, keeps polling only while
   * the door reads closed and stops at the first open reading; a door that
   * already reads open is polled once.
   */
  lemma OpenPollsMeaning(inputs: seq<Pin>, onTime: int, trace: Trace)
    ensures var p, budget := OpenPolls(inputs, onTime, trace), PollBudget(onTime);
      && p <= budget <= MaximumOnTime * PollsPerSecond
      && (p == 0 <==> budget == 0)
      && (forall k :: 0 <= k < p - 1 ==> !DoorReadsOpen(inputs, trace(k)))
      && (p < budget ==> DoorReadsOpen(inputs, trace(p - 1)))
      && (budget > 0 && DoorReadsOpen(inputs, trace(0)) ==> p == 1)
  {
    PollsFromMeaning(inputs, trace, 0, PollBudget(onTime));
  }

  /**
   * What a compartment does to its hardware while it is unlocked, in order:
   * a level written to every lock output, or a check of the door switches.
   */
  datatype LockEvent = Drive(level: bool) | Check

  /** n door checks in a row. */
  function Checks(n: nat): (log: seq<LockEvent>)
    ensures |log| == n && forall k :: 0 <= k < n ==> log[k] == Check
  {
    if n == 0 then [] else Checks(n - 1) + [Check]
  }

  /**
   * One `open()` making `polls` checks: the locks are energised, the door
   * is checked `polls` times, the locks are released and the door is
   * checked once more for the report.
   */
  function Pulse(polls: nat): seq<LockEvent>
  {
    [Drive(true)] + Checks(polls) + [Drive(false), Check]
  }

  lemma PulseLog(before: seq<LockEvent>, energised: seq<LockEvent>, polls: nat)
    requires energised == before + [Drive(true)]
    ensures energised + Checks(polls) + [Drive(false)] + [Check] == before + Pulse(polls)
  {
  }

  lemma CheckLog(log: seq<LockEvent>, polls: nat)
    ensures log + Checks(polls) + [Check] == log + Checks(polls + 1)
  {
  }

  /** The level of the lock outputs after `log`, starting from `level`: the last level driven. */
  function LevelAfter(log: seq<LockEvent>, level: bool): bool
  {
    if |log| == 0 then level
    else if log[|log| - 1].Drive? then log[|log| - 1].level
    else LevelAfter(log[..|log| - 1], level)
  }

  lemma {:induction false} ChecksKeepLevel(log: seq<LockEvent>, n: nat, level: bool)
    ensures LevelAfter(log + Checks(n), level) == LevelAfter(log, level)
  {
    if n == 0 {
      assert log + Checks(n) == log;
    } else {
      var whole := log + Checks(n);
      assert whole[|whole| - 1] == Check;
      assert whole[..|whole| - 1] == log + Checks(n - 1);
      ChecksKeepLevel(log, n - 1, level);
    }
  }

  /**
   * Every door check of a pulse but the last is made while the locks are
   * energised, whatever level they had before; the last is made after they
   * are released, and they stay released.
   */
  lemma PulseEnergised(polls: nat, level: bool)
    ensures forall k :: 1 <= k <= polls ==> Pulse(polls)[k] == Check && LevelAfter(Pulse(polls)[..k], level)
    ensures Pulse(polls)[polls + 2] == Check && !LevelAfter(Pulse(polls)[..polls + 2], level)
    ensures !LevelAfter(Pulse(polls), level)
  {
    var p := Pulse(polls);
    forall k | 1 <= k <= polls
      ensures p[k] == Check && LevelAfter(p[..k], level)
    {
      assert p[..k] == [Drive(true)] + Checks(k - 1);
      ChecksKeepLevel([Drive(true)], k - 1, level);
    }
    assert p[..polls + 2] == p[..polls + 1] + [Drive(false)];
  }

  /** Everything about a compartment except the levels its lock outputs are driven to. */
  datatype Settings = Settings(door: DoorStatus, content: ContentStatus, inputs: seq<Pin>,
                               outputs: seq<Pin>, leds: seq<int>)

  /**
   * The order in which compartments are unlocked, across all of them: every
   * `Open` appends its compartment when it energises the locks.
   */
  class UnlockOrder {
    ghost var unlocked: seq<Compartment>

    constructor ()
      ensures unlocked == []
    {
      unlocked := [];
    }
  }

  class Compartment {
    var doorStatus: DoorStatus
    var contentStatus: ContentStatus
    /** The door switch inputs, low while a switch is pressed by the closed door. */
    var statusInputs: seq<Pin>
    /** The lock coil outputs. */
    var lockOutputs: seq<Pin>
    /** The level last written to each lock output, in the order of `lockOutputs`. */
    var lockLevels: seq<bool>
    /** Positions of the compartment's indicator LEDs on the LED strip. */
    var leds: seq<int>
    /** Every lock write and unlocking door check made so far, in order. */
    ghost var lockLog: seq<LockEvent>

    ghost predicate Valid()
      reads this
    {
      |lockLevels| == |lockOutputs|
    }

    function Snapshot(): Settings
      reads this
    {
      Settings(doorStatus, contentStatus, statusInputs, lockOutputs, leds)
    }

    /** A compartment starts with one I/O pair, closed, and assumed to hold its content. */
    constructor (inputPin: Pin, outputPin: Pin)
      ensures Valid()
      ensures doorStatus == Closed && contentStatus == Present
      ensures statusInputs == [inputPin] && lockOutputs == [outputPin]
      ensures lockLevels == [false] && leds == [] && lockLog == []
    {
      doorStatus := Closed;
      contentStatus := Present;
      statusInputs := [];
      lockOutputs := [];
      lockLevels := [];
      leds := [];
      lockLog := [];
      new;
      AddInput(inputPin);
      AddOutput(outputPin);
    }

    method AddInput(pin: Pin)
      modifies this`statusInputs
      ensures statusInputs == old(statusInputs) + [pin]
    {
      statusInputs := statusInputs + [pin];
    }

    /** A line switched to output starts low. */
    method AddOutput(pin: Pin)
      requires Valid()
      modifies this`lockOutputs, this`lockLevels
      ensures Valid()
      ensures lockOutputs == old(lockOutputs) + [pin]
      ensures lockLevels == old(lockLevels) + [false]
    {
      lockOutputs := lockOutputs + [pin];
      lockLevels := lockLevels + [false];
    }

    /** True unless some switch input reads low; true when there are no inputs. */
    method GetInputs(levels: Levels) returns (open: bool)
      ensures open == DoorReadsOpen(statusInputs, levels)
      ensures !open <==> exists i :: 0 <= i < |statusInputs| && !levels(statusInputs[i])
    {
      open := true;
      for i := 0 to |statusInputs|
        invariant open == forall k :: 0 <= k < i ==> levels(statusInputs[k])
      {
        if levels(statusInputs[i]) == false {
          open := false;
        }
      }
    }

    method SetOutputs(status: bool)
      requires Valid()
      modifies this`lockLevels, this`lockLog
      ensures Valid()
      ensures forall i :: 0 <= i < |lockLevels| ==> lockLevels[i] == status
      ensures lockLog == old(lockLog) + [Drive(status)]
    {
      for i := 0 to |lockOutputs|
        invariant Valid()
        invariant forall k :: 0 <= k < i ==> lockLevels[k] == status
        invariant lockLog == old(lockLog)
      {
        lockLevels := lockLevels[i := status];
      }
      lockLog := lockLog + [Drive(status)];
    }

    /**
     * The polling loop of `open`: checks the door every half second, at most
     * `counter` times, until it reads open.
     */
    method AwaitOpen(counter: int, trace: Trace) returns (polls: nat)
      modifies this`lockLog
      ensures polls == PollsFrom(statusInputs, trace, 0, if counter > 0 then counter else 0)
      ensures lockLog == old(lockLog) + Checks(polls)
    {
      ghost var budget: nat := if counter > 0 then counter else 0;
      var left := counter;
      polls := 0;
      while left > 0
        invariant polls + (if left > 0 then left else 0) == budget
        invariant lockLog == old(lockLog) + Checks(polls)
        invariant PollsFrom(statusInputs, trace, polls, budget) == PollsFrom(statusInputs, trace, 0, budget)
      {
        var open := GetInputs(trace(polls));
        lockLog := lockLog + [Check];
        CheckLog(old(lockLog), polls);
        polls := polls + 1;
        if open {
          break;
        }
        left := left - 1;
      }
    }

    /**
     * Energises every lock, checks the door every half second until it reads
     * open or the clamped on-time is used up, releases every lock whatever
     * happened, and reports the door reading taken after the release.
     * `polls` is the number of half-second checks made, all of them while
     * the locks are energised (`PulseEnergised`).
     */
    method Open(onTime: int, trace: Trace, ghost order: UnlockOrder) returns (isOpen: bool, polls: nat)
      requires Valid()
      modifies this`lockLevels, this`lockLog, order
      ensures Valid() && AllLow(lockLevels)
      ensures order.unlocked == old(order.unlocked) + [this]
      ensures lockLog == old(lockLog) + Pulse(polls)
      ensures polls == OpenPolls(statusInputs, onTime, trace)
      ensures isOpen == OpenReports(statusInputs, onTime, trace)
      ensures doorStatus == old(doorStatus) && contentStatus == old(contentStatus)
    {
      var clamped := onTime;
      if clamped > MaximumOnTime {
        clamped := MaximumOnTime;
      }
      var counter := clamped * PollsPerSecond;
      SetOutputs(true);
      order.unlocked := order.unlocked + [this];
      ghost var energised := lockLog;
      polls := AwaitOpen(counter, trace);
      SetOutputs(false);
      isOpen := GetInputs(trace(polls));
      lockLog := lockLog + [Check];
      PulseLog(old(lockLog), energised, polls);
    }
  }
}
