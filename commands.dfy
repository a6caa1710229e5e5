/**
 * Commands received from the MQTT broker: a message is split at spaces
 * into a verb and its arguments; `status` and `open` take `all` or a
 * compartment number, `reset` restarts the board and `tamper_alarm`
 * switches the tamper alarm on or off.
 */
module Commands {
  import opened Common

  const Separator: char := ' '
  const StatusVerb: string := "status"
  const OpenVerb: string := "open"
  const ResetVerb: string := "reset"
  const AlarmVerb: string := "tamper_alarm"
  const Everything: string := "all"
  const AlarmOn: string := "on"
  const AlarmOff: string := "off"

  /** What a message asks the key box to do. */
  datatype Request =
    | ReportAll                 // log which doors read open
    | Report(id: string)        // log one compartment's door reading and saved state
    | OpenEvery                 // open every compartment in turn
    | OpenOne(id: string)       // open one compartment
    | Restart                   // reset the board
    | SetAlarm(setting: string) // set the tamper alarm
    | Ignored                   // nothing happens
    | Fault                     // the handler raises: a number that does not parse or is not a key

  /** The compartment a numeric argument names, among ids "1" .. count. */
  datatype Target = Existing(id: string) | OutOfRange | Raises

  /**
   * `int(comp)` must parse, then only 1 .. count acts; the registry's keys
   * are the plain decimal ids, so a number written any other way ("01",
   * "+1") passes the range test and then is not found.
   */
  function ResolveTarget(arg: string, count: nat): Target
  {
    match ParseInt(arg)
    case None => Raises
    case Some(n) =>
      if 0 < n <= count then
        if arg == NatToString(n) then Existing(arg) else Raises
      else OutOfRange
  }

  /** The request a message split into words makes, for a registry of `count` compartments. */
  function Classify(pieces: seq<string>, count: nat): Request
    requires |pieces| >= 1
  {
    var verb := pieces[0];
    if verb == StatusVerb && |pieces| == 2 then
      if pieces[1] == Everything then ReportAll
      else
        match ResolveTarget(pieces[1], count)
        case Existing(id) => Report(id)
        case OutOfRange => Ignored
        case Raises => Fault
    else if verb == OpenVerb && |pieces| == 2 then
      if pieces[1] == Everything then OpenEvery
      else
        match ResolveTarget(pieces[1], count)
        case Existing(id) => OpenOne(id)
        case OutOfRange => Ignored
        case Raises => Fault
    else if verb == ResetVerb && |pieces| == 1 then Restart
    else if verb == AlarmVerb && |pieces| == 2 then
      if pieces[1] == AlarmOff then SetAlarm(AlarmOff)
      else if pieces[1] == AlarmOn then SetAlarm(AlarmOn)
      else Ignored
    else Ignored
  }

  /** The request `process_command` acts on: the message is split at every space. */
  function ParseCommand(payload: string, count: nat): Request
  {
    Classify(Split(payload, Separator), count)
  }

  predicate Word(s: string)
  {
    forall i :: 0 <= i < |s| ==> s[i] != Separator
  }

  /** Two words joined by one space split back into those two words. */
  lemma TwoWords(verb: string, arg: string)
    requires Word(verb) && Word(arg)
    ensures Split(verb + [Separator] + arg, Separator) == [verb, arg]
  {
    SplitPlain(arg, Separator);
    SplitWord(verb, arg, Separator);
  }

  /**
   * Each request comes from its verb with the right number of words: a
   * bare `reset`, two words for the others; the alarm is only ever set to
   * "on" or "off", the very word sent; only `status` and `open` can fault.
   */
  lemma CommandShape(payload: string, count: nat)
    ensures var r, pieces := ParseCommand(payload, count), Split(payload, Separator);
      && (r.Restart? <==> pieces == [ResetVerb])
      && (r.ReportAll? <==> pieces == [StatusVerb, Everything])
      && (r.OpenEvery? <==> pieces == [OpenVerb, Everything])
      && (r.SetAlarm? <==> |pieces| == 2 && pieces[0] == AlarmVerb && pieces[1] in {AlarmOn, AlarmOff})
      && (r.SetAlarm? ==> r.setting == pieces[1])
      && (r.Report? ==> |pieces| == 2 && pieces[0] == StatusVerb)
      && (r.Fault? ==> |pieces| == 2 && (pieces[0] == StatusVerb || pieces[0] == OpenVerb))
      && (r.OpenOne? ==> |pieces| == 2 && pieces[0] == OpenVerb)
  {
  }

  /**
   * A compartment is reported on or opened only when the argument is a
   * plain decimal id between 1 and the number of compartments.
   */
  lemma TargetOf(payload: string, count: nat) returns (n: nat)
    requires ParseCommand(payload, count).Report? || ParseCommand(payload, count).OpenOne?
    ensures var r := ParseCommand(payload, count);
      1 <= n <= count && r.id == NatToString(n) && Split(payload, Separator)[1] == r.id
  {
    var arg := Split(payload, Separator)[1];
    n := ParseInt(arg).value;
  }

  /** A plain decimal id in range names an existing compartment. */
  lemma CanonicalResolve(n: nat, count: nat)
    requires 1 <= n <= count
    ensures Word(NatToString(n)) && ResolveTarget(NatToString(n), count) == Existing(NatToString(n))
  {
    NatToStringDigits(n);
    ParseNatToString(n);
  }

  /** `status n` and `open n` with n a plain id in range act on compartment n. */
  lemma CanonicalTarget(n: nat, count: nat)
    requires 1 <= n <= count
    ensures ParseCommand(StatusVerb + [Separator] + NatToString(n), count) == Report(NatToString(n))
    ensures ParseCommand(OpenVerb + [Separator] + NatToString(n), count) == OpenOne(NatToString(n))
  {
    CanonicalResolve(n, count);
    TwoWords(StatusVerb, NatToString(n));
    TwoWords(OpenVerb, NatToString(n));
  }

  /** A compartment number written with a leading zero is in range but is not a key. */
  lemma LeadingZeroTarget(n: nat, count: nat)
    requires 1 <= n <= count
    ensures Word("0" + NatToString(n)) && ResolveTarget("0" + NatToString(n), count) == Raises
  {
    var id := NatToString(n);
    var arg := "0" + id;
    NatToStringDigits(n);
    DigitsValueOfNatToString(n);
    LeadingZeroValue(id);
    assert ParseInt(arg) == Some(n) by {
      assert arg[0] == '0';
    }
  }

  /** `status 0n` and `open 0n` fault for every compartment n. */
  lemma LeadingZeroFaults(n: nat, count: nat)
    requires 1 <= n <= count
    ensures ParseCommand(StatusVerb + [Separator] + ("0" + NatToString(n)), count) == Fault
    ensures ParseCommand(OpenVerb + [Separator] + ("0" + NatToString(n)), count) == Fault
  {
    var arg := "0" + NatToString(n);
    LeadingZeroTarget(n, count);
    TwoWords(StatusVerb, arg);
    TwoWords(OpenVerb, arg);
  }

  /** A number outside 1 .. count is ignored; an argument that is no number faults. */
  lemma ArgumentRange(arg: string, count: nat)
    requires Word(arg) && arg != Everything
    ensures ParseInt(arg).None? ==>
              ParseCommand(StatusVerb + [Separator] + arg, count) == Fault &&
              ParseCommand(OpenVerb + [Separator] + arg, count) == Fault
    ensures ParseInt(arg).Some? && !(0 < ParseInt(arg).value <= count) ==>
              ParseCommand(StatusVerb + [Separator] + arg, count) == Ignored &&
              ParseCommand(OpenVerb + [Separator] + arg, count) == Ignored
  {
    TwoWords(StatusVerb, arg);
    TwoWords(OpenVerb, arg);
  }

  /** `reset` alone restarts the board. */
  lemma ResetCommand(count: nat)
    ensures ParseCommand(ResetVerb, count) == Restart
  {
    SplitPlain(ResetVerb, Separator);
  }

  /** `status all` and `open all` address every compartment. */
  lemma EveryCommand(count: nat)
    ensures ParseCommand(StatusVerb + [Separator] + Everything, count) == ReportAll
    ensures ParseCommand(OpenVerb + [Separator] + Everything, count) == OpenEvery
  {
    TwoWords(StatusVerb, Everything);
    TwoWords(OpenVerb, Everything);
  }

  /** `tamper_alarm on` and `tamper_alarm off` set the alarm to that word. */
  lemma AlarmCommand(count: nat)
    ensures ParseCommand(AlarmVerb + [Separator] + AlarmOn, count) == SetAlarm(AlarmOn)
    ensures ParseCommand(AlarmVerb + [Separator] + AlarmOff, count) == SetAlarm(AlarmOff)
  {
    TwoWords(AlarmVerb, AlarmOn);
    TwoWords(AlarmVerb, AlarmOff);
  }
}
