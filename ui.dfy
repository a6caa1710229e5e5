/**
 * What happens after a code has been classified: the compartment it names
 * is unlocked (a second, longer attempt if the first fails), the user is
 * given a bounded time to close the door and to say whether they took or
 * left the content; the maintenance id "99" unlocks everything.
 *
 * Sleeps are poll counts. What the keypad returns at poll j of a wait is
 * `keys(j)`; what the door switches read at poll j is `doors(j)`.
 */
module Ui {
  import opened Common
  import opened Hardware
  import opened Compartments
  import opened Registry

  /** Both waits poll every tenth of a second for a minute. */
  const WaitPolls: nat := 600

  /** `read_keypad()` at successive polls of a wait. */
  type KeyTrace = nat -> Option<char>

  /** The on-time `open()` uses when called without one. */
  const DefaultOnTime: int := 2

  /** The id that means every compartment. */
  const AllCompartments: string := "99"

  // ---------------------------------------------------------------------------
  // Waiting for the door to close

  /**
   * The close-wait counter when the loop ends, starting at poll j with
   * `counter` left: the loop runs while the door reads open, and x sets
   * the counter to 0.
   */
  function CloseCounter(inputs: seq<Pin>, doors: Trace, keys: KeyTrace, j: nat, counter: nat): nat
    decreases counter
  {
    if counter == 0 || !DoorReadsOpen(inputs, doors(j)) then counter
    else if keys(j) == Some(Clear) then 0
    else CloseCounter(inputs, doors, keys, j + 1, counter - 1)
  }

  /** The door read open at every poll from j to t. */
  predicate OpenThrough(inputs: seq<Pin>, doors: Trace, j: nat, t: nat)
  {
    forall k :: j <= k <= t ==> DoorReadsOpen(inputs, doors(k))
  }

  /** The close-wait gives up: the door is recorded as left open. */
  predicate LeftOpen(inputs: seq<Pin>, doors: Trace, keys: KeyTrace)
  {
    CloseCounter(inputs, doors, keys, 0, WaitPolls) == 0
  }

  lemma {:induction false} CloseCounterMeaning(inputs: seq<Pin>, doors: Trace, keys: KeyTrace, j: nat, counter: nat)
    requires counter >= 1
    ensures CloseCounter(inputs, doors, keys, j, counter) == 0 <==>
      exists t :: j <= t < j + counter && OpenThrough(inputs, doors, j, t)
                  && (t == j + counter - 1 || keys(t) == Some(Clear))
    decreases counter
  {
    var open := DoorReadsOpen(inputs, doors(j));
    if !open {
      assert forall t :: j <= t ==> !OpenThrough(inputs, doors, j, t) by {
        forall t | j <= t ensures !OpenThrough(inputs, doors, j, t) {
          assert !DoorReadsOpen(inputs, doors(j));
        }
      }
    } else if keys(j) == Some(Clear) || counter == 1 {
      assert OpenThrough(inputs, doors, j, j);
    } else {
      CloseCounterMeaning(inputs, doors, keys, j + 1, counter - 1);
      if CloseCounter(inputs, doors, keys, j, counter) == 0 {
        var t :| j + 1 <= t < j + counter && OpenThrough(inputs, doors, j + 1, t)
                 && (t == j + counter - 1 || keys(t) == Some(Clear));
        assert OpenThrough(inputs, doors, j, t) by {
          forall k | j <= k <= t ensures DoorReadsOpen(inputs, doors(k)) {
            if k > j {
              assert j + 1 <= k <= t;
            }
          }
        }
      } else {
        forall t | j <= t < j + counter && OpenThrough(inputs, doors, j, t)
          ensures t != j + counter - 1 && keys(t) != Some(Clear)
        {
          if t > j {
            assert OpenThrough(inputs, doors, j + 1, t);
          }
        }
      }
    }
  }

  /**
   * The door is recorded as left open exactly when it read open at every
   * poll up to one at which x was pressed or the 600th poll; a door that
   * reads closed at some poll before either ends the wait as closed.
   */
  lemma LeftOpenMeaning(inputs: seq<Pin>, doors: Trace, keys: KeyTrace)
    ensures LeftOpen(inputs, doors, keys) <==>
      exists t :: 0 <= t < WaitPolls && OpenThrough(inputs, doors, 0, t)
                  && (t == WaitPolls - 1 || keys(t) == Some(Clear))
  {
    CloseCounterMeaning(inputs, doors, keys, 0, WaitPolls);
  }

  /** A door that reads closed at the first poll is recorded as closed, whatever is pressed. */
  lemma ClosedAtOnce(inputs: seq<Pin>, doors: Trace, keys: KeyTrace)
    requires !DoorReadsOpen(inputs, doors(0))
    ensures !LeftOpen(inputs, doors, keys)
  {
  }

  /**
   * Waits, at most 600 polls, for the door of `c` to read closed; x gives up
   * at once. The door status becomes open exactly when the wait gave up.
   */
  method CloseWait(c: Compartment, doors: Trace, keys: KeyTrace) returns (polls: nat)
    modifies c`doorStatus
    ensures polls <= WaitPolls
    ensures c.doorStatus == if LeftOpen(c.statusInputs, doors, keys) then Open else Closed
  {
    var counter := WaitPolls;
    polls := 0;
    var open := c.GetInputs(doors(polls));
    while open && counter > 0
      invariant polls + counter <= WaitPolls
      invariant open == DoorReadsOpen(c.statusInputs, doors(polls))
      invariant CloseCounter(c.statusInputs, doors, keys, polls, counter) == CloseCounter(c.statusInputs, doors, keys, 0, WaitPolls)
    {
      counter := counter - 1;
      var reply := keys(polls);
      if reply == Some(Clear) {
        counter := 0;
      }
      polls := polls + 1;
      open := c.GetInputs(doors(polls));
    }
    if counter == 0 {
      c.doorStatus := Open;
    } else {
      c.doorStatus := Closed;
    }
  }

  // ---------------------------------------------------------------------------
  // Asking about the content

  /** ✓ and x answer the content question; other keys and no key are ignored. */
  predicate IsAnswer(key: Option<char>)
  {
    key == Some(Confirm) || key == Some(Clear)
  }

  /** The first of the `counter` polls from j on at which ✓ or x was read. */
  function FirstAnswer(keys: KeyTrace, j: nat, counter: nat): (first: Option<nat>)
    ensures first.Some? ==> j <= first.value < j + counter && IsAnswer(keys(first.value))
    decreases counter
  {
    if counter == 0 then None
    else if IsAnswer(keys(j)) then Some(j)
    else FirstAnswer(keys, j + 1, counter - 1)
  }

  lemma {:induction false} FirstAnswerMeaning(keys: KeyTrace, j: nat, counter: nat)
    ensures match FirstAnswer(keys, j, counter)
      case None => forall t :: j <= t < j + counter ==> !IsAnswer(keys(t))
      case Some(t) => j <= t < j + counter && IsAnswer(keys(t))
                      && forall k :: j <= k < t ==> !IsAnswer(keys(k))
    decreases counter
  {
    if counter > 0 && !IsAnswer(keys(j)) {
      FirstAnswerMeaning(keys, j + 1, counter - 1);
    }
  }

  /**
   * The new content status after an answer: ✓ says the content changed
   * (taken out if it was there, put in otherwise), x says it did not.
   */
  function Answered(status: ContentStatus, key: char): ContentStatus
  {
    if key == Confirm then
      if status == Unknown || status == Empty then Present else Empty
    else
      if status == Unknown || status == Empty then Empty else Present
  }

  /** x never changes a known status; ✓ always flips a known one; from unknown, ✓ gives present and x empty. */
  lemma AnsweredMeaning(status: ContentStatus)
    ensures Answered(Unknown, Confirm) == Present && Answered(Unknown, Clear) == Empty
    ensures status != Unknown ==> Answered(status, Clear) == status
    ensures status != Unknown ==> Answered(status, Confirm) != status
    ensures Answered(status, Confirm) != Unknown && Answered(status, Clear) != Unknown
    ensures status != Unknown ==> Answered(Answered(status, Confirm), Confirm) == status
  {
  }

  /**
   * The content status after the dialogue: the answer given at the first
   * answering poll, unless nobody answered or the answer came at the last
   * poll, where the counter has already reached 0 and the status becomes
   * unknown.
   */
  function DialogueOutcome(status: ContentStatus, keys: KeyTrace): ContentStatus
  {
    match FirstAnswer(keys, 0, WaitPolls)
    case None => Unknown
    case Some(t) => if t == WaitPolls - 1 then Unknown else Answered(status, keys(t).value)
  }

  /**
   * The first ✓ or x among the first 599 polls decides the status; with no
   * such answer the status becomes unknown, even if ✓ or x comes at poll 600.
   */
  lemma DialogueMeaning(status: ContentStatus, keys: KeyTrace)
    ensures forall t :: (0 <= t < WaitPolls - 1 && IsAnswer(keys(t))
                         && (forall k :: 0 <= k < t ==> !IsAnswer(keys(k)))) ==>
              DialogueOutcome(status, keys) == Answered(status, keys(t).value)
    ensures (forall t :: 0 <= t < WaitPolls - 1 ==> !IsAnswer(keys(t))) ==> DialogueOutcome(status, keys) == Unknown
  {
    FirstAnswerMeaning(keys, 0, WaitPolls);
  }

  /** Asks whether the content was taken or left, for at most 600 polls. */
  method ContentDialogue(c: Compartment, keys: KeyTrace) returns (polls: nat)
    modifies c`contentStatus
    ensures polls <= WaitPolls
    ensures c.contentStatus == DialogueOutcome(old(c.contentStatus), keys)
  {
    var counter := WaitPolls;
    polls := 0;
    while counter > 0
      invariant polls + counter == WaitPolls
      invariant c.contentStatus == old(c.contentStatus)
      invariant FirstAnswer(keys, polls, counter) == FirstAnswer(keys, 0, WaitPolls)
    {
      counter := counter - 1;
      var reply := keys(polls);
      polls := polls + 1;
      if reply == Some(Confirm) {
        if c.contentStatus == Unknown || c.contentStatus == Empty {
          c.contentStatus := Present;
        } else {
          c.contentStatus := Empty;
        }
        break;
      } else if reply == Some(Clear) {
        if c.contentStatus == Unknown || c.contentStatus == Empty {
          c.contentStatus := Empty;
        } else {
          c.contentStatus := Present;
        }
        break;
      }
    }
    if counter == 0 {
      c.contentStatus := Unknown;
    }
  }

  // ---------------------------------------------------------------------------
  // Unlocking

  /** `c` was unlocked once with the default on-time, reported `report`, and kept its statuses, lines and LEDs. */
  twostate predicate PulsedOnce(c: Compartment, new trace: Trace, report: bool)
    reads c
  {
    && report == OpenReports(c.statusInputs, DefaultOnTime, trace) && AllLow(c.lockLevels)
    && c.lockLog == old(c.lockLog) + Pulse(OpenPolls(c.statusInputs, DefaultOnTime, trace))
    && c.Snapshot() == old(c.Snapshot())
  }

  /** Nothing about `c` changed, its locks included. */
  twostate predicate Untouched(c: Compartment)
    reads c
  {
    c.Snapshot() == old(c.Snapshot()) && c.lockLevels == old(c.lockLevels) && c.lockLog == old(c.lockLog)
  }

  /** Appending the next element of `s` to a prefix of it. */
  lemma TakeNext<T>(t: seq<T>, s: seq<T>, n: nat)
    requires n < |s|
    ensures t + s[..n] + [s[n]] == t + s[..n + 1]
  {
  }

  /** `compartments[id].open()` with the default on-time, as `open_all` and the broker's `open` command issue it. */
  method OpenById(compartments: map<string, Compartment>, ghost objs: seq<Compartment>, id: string, trace: Trace,
                  ghost order: UnlockOrder)
    returns (isOpen: bool)
    requires Registered(compartments, objs) && id in compartments
    modifies compartments[id], order
    ensures Registered(compartments, objs)
    ensures PulsedOnce(compartments[id], trace, isOpen)
    ensures order.unlocked == old(order.unlocked) + [compartments[id]]
  {
    ghost var position := KeyPosition(compartments, objs, id);
    var c := compartments[id];
    var polls;
    isOpen, polls := c.Open(DefaultOnTime, trace, order);
  }

  /**
   * `open_all`: unlocks compartments "1" .. str(n) in that order, each once
   * with the default on-time. `reports[i]` is what the i-th `open()`
   * returned, which the caller discards.
   */
  method OpenAll(compartments: map<string, Compartment>, ghost objs: seq<Compartment>, traces: nat -> Trace,
                 ghost order: UnlockOrder)
    returns (reports: seq<bool>)
    requires Registered(compartments, objs)
    modifies objs, order
    ensures Registered(compartments, objs)
    ensures |reports| == |objs| && forall i :: 0 <= i < |objs| ==> PulsedOnce(objs[i], traces(i), reports[i])
    ensures order.unlocked == old(order.unlocked) + objs
  {
    reports := [];
    ghost var start := order.unlocked;
    for index := 0 to |compartments|
      invariant |reports| == index
      invariant forall i :: 0 <= i < |objs| ==>
                  objs[i].Valid() && if i < index then PulsedOnce(objs[i], traces(i), reports[i]) else Untouched(objs[i])
      invariant order.unlocked == start + objs[..index]
    {
      var isOpen := OpenById(compartments, objs, Id(index), traces(index), order);
      reports := reports + [isOpen];
      TakeNext(start, objs, index);
    }
    assert objs[..|objs|] == objs;
  }

  // ---------------------------------------------------------------------------
  // One transaction

  /** How `process_compartment` dealt with the id a code gave. */
  datatype Handling =
    | Invalid                            // the code was invalid: no id
    | NotConnected                       // an id that is neither registered nor "99"
    | OpenedAll(reports: seq<bool>)      // "99": every compartment unlocked
    | Served(attempts: nat, unlocked: bool) // a registered compartment: unlock attempts and the last result

  /** The readings one transaction consumes, each wait with its own polls. */
  datatype Readings = Readings(firstOpen: Trace, secondOpen: Trace, doors: Trace,
                               closeKeys: KeyTrace, answerKeys: KeyTrace, allOpen: nat -> Trace)

  /**
   * `c` was served: unlocked for one second and, only if that did not
   * report the door open, once more for three; then the close-wait set its
   * door status and the dialogue its content status. Its lines and LEDs are
   * unchanged.
   */
  twostate predicate ServedAs(c: Compartment, new r: Readings, attempts: nat, unlocked: bool, order: UnlockOrder)
    reads c, order
  {
    && attempts == (if OpenReports(c.statusInputs, 1, r.firstOpen) then 1 else 2)
    && unlocked == (OpenReports(c.statusInputs, 1, r.firstOpen) || OpenReports(c.statusInputs, 3, r.secondOpen))
    && c.lockLog == old(c.lockLog) + Pulse(OpenPolls(c.statusInputs, 1, r.firstOpen)) +
         (if attempts == 2 then Pulse(OpenPolls(c.statusInputs, 3, r.secondOpen)) else [])
    && order.unlocked == old(order.unlocked) + (if attempts == 2 then [c, c] else [c])
    && AllLow(c.lockLevels)
    && c.doorStatus == (if LeftOpen(c.statusInputs, r.doors, r.closeKeys) then Open else Closed)
    && c.contentStatus == DialogueOutcome(old(c.contentStatus), r.answerKeys)
    && c.statusInputs == old(c.statusInputs) && c.lockOutputs == old(c.lockOutputs) && c.leds == old(c.leds)
  }

  /**
   * What `process_compartment` does with `index`. No id, or an unknown id
   * other than "99", changes nothing. "99", when no compartment has that
   * id, unlocks every compartment once, in id order. A registered id has its
   * compartment served and leaves every other untouched.
   */
  twostate predicate Handled(compartments: map<string, Compartment>, objs: seq<Compartment>, index: Option<string>,
                             r: Readings, h: Handling, order: UnlockOrder)
    reads objs, order
  {
    if index.None? || (index.value !in compartments && index.value != AllCompartments) then
      && h == (if index.None? then Invalid else NotConnected)
      && (forall i :: 0 <= i < |objs| ==> Untouched(objs[i]))
      && order.unlocked == old(order.unlocked)
    else if index.value !in compartments then
      && h.OpenedAll? && |h.reports| == |objs|
      && (forall i :: 0 <= i < |objs| ==> PulsedOnce(objs[i], r.allOpen(i), h.reports[i]))
      && order.unlocked == old(order.unlocked) + objs
    else
      && h.Served?
      && forall i :: 0 <= i < |objs| ==>
           if objs[i] == compartments[index.value] then ServedAs(objs[i], r, h.attempts, h.unlocked, order)
           else Untouched(objs[i])
  }

  /** The branch of `process_compartment` for a registered compartment. */
  method Serve(c: Compartment, r: Readings, ghost order: UnlockOrder) returns (attempts: nat, status: bool)
    requires c.Valid()
    modifies c, order
    ensures c.Valid()
    ensures ServedAs(c, r, attempts, status, order)
  {
    var firstPolls;
    status, firstPolls := c.Open(1, r.firstOpen, order);
    attempts := 1;
    if !status {
      // not opened: ask the user to press on the door and try once more, longer
      var secondPolls;
      status, secondPolls := c.Open(3, r.secondOpen, order);
      attempts := 2;
    }
    var closePolls := CloseWait(c, r.doors, r.closeKeys);
    var dialoguePolls := ContentDialogue(c, r.answerKeys);
  }

  /** `process_compartment`, as `Handled` states it. */
  method ProcessCompartment(compartments: map<string, Compartment>, ghost objs: seq<Compartment>,
                            index: Option<string>, r: Readings, ghost order: UnlockOrder) returns (h: Handling)
    requires Registered(compartments, objs)
    modifies objs, order
    ensures Registered(compartments, objs)
    ensures Handled(compartments, objs, index, r, h, order)
  {
    match index
    case None =>
      h := Invalid;
    case Some(id) =>
      if id in compartments {
        ghost var position := KeyPosition(compartments, objs, id);
        var c := compartments[id];
        var attempts, status := Serve(c, r, order);
        h := Served(attempts, status);
      } else if id == AllCompartments {
        var reports := OpenAll(compartments, objs, r.allOpen, order);
        h := OpenedAll(reports);
      } else {
        h := NotConnected;
      }
  }
}
