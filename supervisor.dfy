/**
 * The key box's main loop: every pass reads the keypad into the code
 * buffer (a confirmed code is checked, served and logged), then runs the
 * periodic duties on a pass counter that wraps every 6001 passes. Commands
 * from the MQTT broker arrive while the broker is polled.
 */
module Supervisor {
  import opened Common
  import opened Hardware
  import opened Compartments
  import opened Registry
  import CodeCheck
  import opened Commands
  import opened Ui

  /** The keypad buffer holds at most eight digits; further digits are ignored. */
  const MaxCodeLength: nat := 8

  /** What the code log records instead of a maintenance code. */
  const MaintenanceWord: string := "maintainance"

  /** Pass periods of the duties: watchdog and Wi-Fi, broker poll, keepalive. */
  const WatchdogPeriod: nat := 101
  const BrokerPeriod: nat := 301
  const KeepalivePeriod: nat := 6001

  /** The board restarts itself at 3 o'clock once it has been up longer than 12000 seconds. */
  const ResetHour: int := 3
  const MinResetUptime: real := 12000.0

  // ---------------------------------------------------------------------------
  // The code buffer

  /** The buffer after a new press of `k`: confirm and clear empty it, a digit is appended while there is room. */
  function Typed(code: string, k: char): string
  {
    if k == Confirm || k == Clear then ""
    else if |code| < MaxCodeLength then code + [k]
    else code
  }

  /** The buffer after the new presses `presses`, in order, starting from `code`. */
  function Fold(code: string, presses: seq<char>): string
    decreases |presses|
  {
    if |presses| == 0 then code else Fold(Typed(code, presses[0]), presses[1..])
  }

  lemma {:induction false} FoldAppend(code: string, a: seq<char>, b: seq<char>)
    ensures Fold(code, a + b) == Fold(Fold(code, a), b)
    decreases |a|
  {
    if |a| > 0 {
      assert (a + b)[0] == a[0] && (a + b)[1..] == a[1..] + b;
      calc {
        Fold(code, a + b);
        Fold(Typed(code, a[0]), a[1..] + b);
        { FoldAppend(Typed(code, a[0]), a[1..], b); }
        Fold(Fold(Typed(code, a[0]), a[1..]), b);
      }
    } else {
      assert a + b == b;
    }
  }

  /** Digits typed into a buffer of at most eight fill it up to eight; the rest are dropped. */
  lemma {:induction false} FoldDigits(code: string, digits: seq<char>)
    requires |code| <= MaxCodeLength
    requires forall i :: 0 <= i < |digits| ==> IsDigit(digits[i])
    ensures Fold(code, digits) == (code + digits)[..Min(|code| + |digits|, MaxCodeLength)]
    decreases |digits|
  {
    if |digits| > 0 {
      var next := Typed(code, digits[0]);
      FoldDigits(next, digits[1..]);
      if |code| < MaxCodeLength {
        assert next + digits[1..] == code + digits;
      } else {
        assert (code + digits)[..MaxCodeLength] == code;
      }
    }
  }

  function Min(a: nat, b: nat): nat
  {
    if a < b then a else b
  }

  /**
   * Whatever was typed before, after a clear or a confirm the buffer holds
   * the first eight digits typed since.
   */
  lemma ClearedBuffer(code: string, before: seq<char>, k: char, digits: seq<char>)
    requires k == Clear || k == Confirm
    requires forall i :: 0 <= i < |digits| ==> IsDigit(digits[i])
    ensures Fold(code, before + [k] + digits) == digits[..Min(|digits|, MaxCodeLength)]
  {
    FoldAppend(code, before + [k], digits);
    FoldAppend(code, before, [k]);
    FoldDigits("", digits);
    assert "" + digits == digits;
  }

  // ---------------------------------------------------------------------------
  // The pass counter

  /** The counter after one pass: 6001 wraps to 0 before the increment. */
  function NextCount(counter: nat): nat
  {
    (if counter == KeepalivePeriod then 0 else counter) + 1
  }

  /** The counter at the start of pass n, the first pass being pass 0. */
  function CountAt(n: nat): nat
  {
    if n == 0 then 0 else NextCount(CountAt(n - 1))
  }

  /** After the first pass the counter runs 1, 2, .., 6001, 1, 2, ..; it is never above 6001. */
  lemma {:induction false} CountClosedForm(n: nat)
    ensures CountAt(n) == if n == 0 then 0 else (n - 1) % KeepalivePeriod + 1
  {
    if n > 1 {
      CountClosedForm(n - 1);
    }
  }

  /** The keepalive, the battery check and the reset gate run on pass n exactly when n is a positive multiple of 6001. */
  lemma KeepaliveCadence(n: nat)
    ensures CountAt(n) == KeepalivePeriod <==> n > 0 && n % KeepalivePeriod == 0
  {
    CountClosedForm(n);
  }

  lemma {:induction false} CountRange(n: nat)
    ensures n == 0 ==> CountAt(n) == 0
    ensures n > 0 ==> 1 <= CountAt(n) <= KeepalivePeriod
  {
    if n > 0 {
      CountRange(n - 1);
    }
  }

  lemma {:induction false} CountAdvance(n: nat, d: nat)
    requires CountAt(n) + d <= KeepalivePeriod
    ensures CountAt(n + d) == CountAt(n) + d
  {
    if d > 0 {
      CountAdvance(n, d - 1);
    }
  }

  /**
   * The watchdog is fed at least once in every 143 consecutive passes: 101
   * passes apart within a round, 143 across the wrap from 5959 to 101.
   */
  lemma WatchdogRecurs(n: nat) returns (m: nat)
    ensures n <= m < n + 143 && CountAt(m) % WatchdogPeriod == 0
  {
    CountRange(n);
    var c := CountAt(n);
    if c <= 5959 {
      var d := (WatchdogPeriod - c % WatchdogPeriod) % WatchdogPeriod;
      CountAdvance(n, d);
      m := n + d;
    } else {
      var d := KeepalivePeriod - c;
      CountAdvance(n, d);
      CountAdvance(n + d + 1, 100);
      m := n + d + 101;
    }
  }

  /**
   * The broker is polled at least once in every 583 consecutive passes: 301
   * passes apart within a round, 583 across the wrap from 5719 to 301.
   */
  lemma BrokerRecurs(n: nat) returns (m: nat)
    ensures n <= m < n + 583 && CountAt(m) % BrokerPeriod == 0
  {
    CountRange(n);
    var c := CountAt(n);
    if c <= 5719 {
      var d := (BrokerPeriod - c % BrokerPeriod) % BrokerPeriod;
      CountAdvance(n, d);
      m := n + d;
    } else {
      var d := KeepalivePeriod - c;
      CountAdvance(n, d);
      CountAdvance(n + d + 1, 300);
      m := n + d + 301;
    }
  }

  predicate ResetDue(hour: int, uptime: real)
  {
    hour == ResetHour && uptime > MinResetUptime
  }

  /** Which periodic duties a pass runs. */
  datatype Duties = Duties(watchdog: bool, broker: bool, keepalive: bool, reset: bool)

  // ---------------------------------------------------------------------------
  // Results of a pass

  /** What the code log records for a confirmed code. */
  datatype CodeLog = CodeLog(code: string, index: Option<string>, content: Option<ContentStatus>, door: Option<DoorStatus>)

  /** What a broker command did. */
  datatype Outcome =
    | NoEffect
    | OpenList(ids: seq<string>)
    | DoorReport(doorOpen: bool, door: DoorStatus, content: ContentStatus)
    | EveryOpened(reports: seq<bool>)
    | OneOpened(isOpen: bool)
    | Restarting

  /**
   * The code log entry for `code`, classified as `v`: a maintenance code is
   * recorded as the word "maintainance", with the id and, for a registered
   * compartment, its content and door status after the transaction.
   */
  ghost predicate Logged(compartments: map<string, Compartment>, code: string, v: CodeCheck.Verdict, log: CodeLog)
    reads compartments.Values
  {
    && log.code == (if v.status == CodeCheck.Maintenance then MaintenanceWord else code)
    && log.index == v.index
    && (if v.index.Some? && v.index.value in compartments
        then log.content == Some(compartments[v.index.value].contentStatus)
             && log.door == Some(compartments[v.index.value].doorStatus)
        else log.content.None? && log.door.None?)
  }

  /**
   * The confirm branch of the main loop: `check_code`, then
   * `process_compartment`, then the code log entry.
   */
  method Transact(compartments: map<string, Compartment>, ghost objs: seq<Compartment>, code: string, prefix: string,
                  fetch: CodeCheck.Fetch, r: Readings, ghost order: UnlockOrder) returns (h: Handling, log: CodeLog)
    requires Registered(compartments, objs) && CodeCheck.IdReadable(code, prefix)
    modifies objs, order
    ensures Registered(compartments, objs)
    ensures Logged(compartments, code, CodeCheck.CodeResult(code, prefix, fetch), log)
    ensures Handled(compartments, objs, CodeCheck.CodeResult(code, prefix, fetch).index, r, h, order)
  {
    var index, status := CodeCheck.CheckCode(code, prefix, fetch);
    h := ProcessCompartment(compartments, objs, index, r, order);
    var logged := if status == CodeCheck.Maintenance then MaintenanceWord else code;
    if index.Some? && index.value in compartments {
      var c := compartments[index.value];
      log := CodeLog(logged, index, Some(c.contentStatus), Some(c.doorStatus));
    } else {
      log := CodeLog(logged, index, None, None);
    }
  }

  class Keybox {
    /** The digits typed so far. */
    var code: string
    /** The key read on the previous pass; a key counts once per press. */
    var lastPressed: Option<char>
    var counter: nat
    /** "on" or "off" as last set by the broker, or as configured. */
    var tamperAlarm: string
    var compartments: map<string, Compartment>
    /** The registered compartments in id order. */
    ghost var objs: seq<Compartment>
    /** The configured six-digit maintenance prefix. */
    const prefix: string

    ghost predicate Valid()
      reads this, objs
    {
      && Registered(compartments, objs)
      && |code| <= MaxCodeLength && AllDigits(code)
      && counter <= KeepalivePeriod
    }

    /** Start-up: the registry is built, the buffer is empty and the counter is 0. */
    constructor (expanderCount: nat, largeCompartments: seq<int>, prefix: string, tamperAlarm: string)
      requires |largeCompartments| > 0
      requires StartResolvable(largeCompartments[|largeCompartments| - 1], 8 * expanderCount)
      ensures Valid()
      ensures code == "" && lastPressed == None && counter == 0
      ensures this.prefix == prefix && this.tamperAlarm == tamperAlarm
      ensures Built(objs, LayoutAfter(largeCompartments[|largeCompartments| - 1], 8 * expanderCount))
      ensures forall i :: 0 <= i < |objs| ==> fresh(objs[i])
    {
      var built;
      ghost var builtObjs;
      built, builtObjs := BuildRegistry(expanderCount, largeCompartments);
      this.prefix := prefix;
      this.tamperAlarm := tamperAlarm;
      code := "";
      lastPressed := None;
      counter := 0;
      compartments := built;
      objs := builtObjs;
    }

    /**
     * The keypad part of a pass. A key that differs from the previous
     * reading is a new press: clear empties the buffer and a digit is
     * appended while the buffer has room; a new press of confirm is
     * reported in `confirmed` and handled by `ConfirmCode`, which then
     * empties the buffer.
     */
    method Press(sensor: Option<Mask>) returns (key: Option<char>, confirmed: bool)
      requires Valid()
      modifies this`code, this`lastPressed
      ensures Valid()
      ensures key == KeyOf(sensor) && lastPressed == key
      ensures confirmed == (key != old(lastPressed) && key == Some(Confirm))
      ensures code == if key == old(lastPressed) || key.None? || confirmed then old(code) else Typed(old(code), key.value)
    {
      key := ReadKeypad(sensor);
      confirmed := false;
      if key != lastPressed {
        lastPressed := key;
        if key.Some? {
          var k := key.value;
          if k == Confirm {
            confirmed := true;
          } else if k == Clear {
            code := "";
          } else if |code| < MaxCodeLength {
            code := code + [k];
          }
        }
      }
    }

    /**
     * A confirmed code: it is checked, handled and logged as `Transact`
     * states, and the buffer is emptied. `fetch` is the server's answer
     * should the code be looked up.
     */
    method ConfirmCode(fetch: CodeCheck.Fetch, r: Readings, ghost order: UnlockOrder) returns (h: Handling, log: CodeLog)
      requires Valid()
      modifies this`code, objs, order
      ensures Valid() && code == ""
      ensures Logged(compartments, old(code), CodeCheck.CodeResult(old(code), prefix, fetch), log)
      ensures Handled(compartments, objs, CodeCheck.CodeResult(old(code), prefix, fetch).index, r, h, order)
    {
      CodeCheck.DigitsReadable(code, prefix);
      h, log := Transact(compartments, objs, code, prefix, fetch, r, order);
      code := "";
    }

    /**
     * The counter part of a pass: the watchdog and Wi-Fi duty every 101
     * passes, the broker poll every 301, and on the pass where the counter
     * reads 6001 the keepalive, the battery check and the reset gate; then
     * the counter advances.
     */
    method Tick(hour: int, uptime: real) returns (d: Duties)
      requires Valid()
      modifies this`counter
      ensures Valid()
      ensures d.watchdog == (old(counter) % WatchdogPeriod == 0)
      ensures d.broker == (old(counter) % BrokerPeriod == 0)
      ensures d.keepalive == (old(counter) == KeepalivePeriod)
      ensures d.reset == (d.keepalive && ResetDue(hour, uptime))
      ensures counter == NextCount(old(counter))
    {
      var watchdog := counter % WatchdogPeriod == 0;
      var broker := counter % BrokerPeriod == 0;
      var keepalive, reset := false, false;
      if counter == KeepalivePeriod {
        counter := 0;
        keepalive := true;
        if hour == ResetHour && uptime > MinResetUptime {
          reset := true;
        }
      }
      counter := counter + 1;
      d := Duties(watchdog, broker, keepalive, reset);
    }

    /**
     * `process_command` for one message from the broker. `levels` is what
     * the door switches read for `status`; `openTrace` and `traces` are the
     * door readings while `open` unlocks one or every compartment.
     */
    method HandleCommand(payload: string, levels: Levels, openTrace: Trace, traces: nat -> Trace,
                         ghost order: UnlockOrder)
      returns (request: Request, outcome: Outcome)
      requires Valid()
      modifies this`tamperAlarm, objs, order
      ensures Valid()
      ensures request == ParseCommand(payload, |compartments|)
      ensures tamperAlarm == if request.SetAlarm? then request.setting else old(tamperAlarm)
      ensures request.ReportAll? ==> outcome == OpenList(OpenIds(compartments, levels, |compartments|))
      ensures request.Report? ==>
                request.id in compartments &&
                var c := compartments[request.id];
                outcome == DoorReport(DoorReadsOpen(c.statusInputs, levels), c.doorStatus, c.contentStatus)
      ensures request.OpenEvery? ==>
                && outcome.EveryOpened? && |outcome.reports| == |objs|
                && (forall i :: 0 <= i < |objs| ==> PulsedOnce(objs[i], traces(i), outcome.reports[i]))
                && order.unlocked == old(order.unlocked) + objs
      ensures request.OpenOne? ==>
                && request.id in compartments && outcome.OneOpened?
                && (forall i :: 0 <= i < |objs| ==>
                      if objs[i] == compartments[request.id] then PulsedOnce(objs[i], openTrace, outcome.isOpen)
                      else Untouched(objs[i]))
                && order.unlocked == old(order.unlocked) + [compartments[request.id]]
      ensures request.Restart? ==> outcome == Restarting
      ensures request.SetAlarm? || request.Ignored? || request.Fault? ==> outcome == NoEffect
      ensures !request.OpenEvery? && !request.OpenOne? ==>
                (forall i :: 0 <= i < |objs| ==> Untouched(objs[i])) && order.unlocked == old(order.unlocked)
    {
      request := ParseCommand(payload, |compartments|);
      outcome := NoEffect;
      match request
      case ReportAll =>
        var ids := CheckAll(compartments, levels);
        outcome := OpenList(ids);
      case Report(id) =>
        var n := TargetOf(payload, |compartments|);
        IdRegistered(compartments, n);
        var c := compartments[id];
        var doorOpen := c.GetInputs(levels);
        outcome := DoorReport(doorOpen, c.doorStatus, c.contentStatus);
      case OpenEvery =>
        var reports := OpenAll(compartments, objs, traces, order);
        outcome := EveryOpened(reports);
      case OpenOne(id) =>
        var n := TargetOf(payload, |compartments|);
        IdRegistered(compartments, n);
        ghost var position := KeyPosition(compartments, objs, id);
        var isOpen := OpenById(compartments, objs, id, openTrace, order);
        outcome := OneOpened(isOpen);
      case Restart =>
        outcome := Restarting;
      case SetAlarm(setting) =>
        tamperAlarm := setting;
      case Ignored =>
      case Fault =>
    }
  }
}
