# ZE-Keybox key locker: a Dafny model

The key box is a CircuitPython program for a locker of key compartments. Each compartment has
door switches and lock coils on I2C port expanders. A user types a code on a capacitive keypad:
- a four-digit code is looked up in the codes fetched from the booking server;
- an eight-digit code is a maintenance code, made of a two-digit compartment id and a configured
  six-digit prefix.

The compartment a code gives is unlocked, and the user gets a minute to close the door and to say
whether they took or left the content. Every code entered is logged. A pass counter schedules the
periodic duties: feeding the watchdog, polling the MQTT broker for commands, a keepalive, and a
restart at 3 a.m.

The model covers:

- `Hardware`: keypad decoding. A key is produced only when exactly one of the twelve touch pads
  is touched.
- `Compartments`: the compartment object (`class Compartment`). Its `Open` energises the locks,
  polls the door every half second up to the clamped on-time, always releases the locks, and
  reports the door reading taken after the release. A ghost history `lockLog` records, in order,
  every level written to the lock outputs and every door check made while unlocking, so each
  contract built on `Open` states that the locks were energised during the checks. A second ghost
  record, shared by every compartment (`class UnlockOrder`), lists the compartments in the order
  they were unlocked, so the contracts also state the order across compartments.
- `Registry`: the start-up loop that turns the detected port expanders (eight spaces each) into
  compartments. The ids run "1", "2", … and the large compartment at space s absorbs spaces
  s+1, s+8 and s+9. It also holds `check_all`.
- `CodeCheck`: `check_code`.
- `Ui`: `process_compartment` and `open_all`. The sleeps of the two one-minute waits are poll
  counts; what the door and the keypad read at each poll are function-valued parameters.
- `Commands`: how `process_command` classifies a broker message.
- `Supervisor`: the main loop's state (`class Keybox`), with four parts:
  - the keypad edge detection and code buffer;
  - the confirmed-code transaction and its code log;
  - the pass counter and its duties;
  - the execution of broker commands.

Sensor inputs, network replies, the clock and the uptime are parameters. They are never read from
devices.

## Model

| member | source | states |
|---|---|---|
| Hardware.ReadKeypad | hardware.py:88-100 | The key read is `KeyOf(sensor)`: none without a sensor or unless exactly one pad is touched. A key that is read is one of the twelve pad symbols. |
| Hardware.SinglePadKey | hardware.py:95-96 | Exactly one touched pad i gives `keys[i]`. |
| Hardware.KeyFromSinglePad | hardware.py:92-98 | A key is produced only when exactly one pad is touched, namely that key's pad. |
| Hardware.TwoPadsNoKey | hardware.py:95-98 | Two touched pads never give a key. |
| Hardware.NoPadNoKey | hardware.py:95-98 | No touched pad gives no key. |
| Hardware.HighBitsIgnored | hardware.py:92-94 | Mask bits 12 to 15 never change the key. |
| Hardware.TouchedPadsExact | hardware.py:92-94 | The collected pads are exactly the touched ones, in increasing order. |
| Hardware.KeysDistinct | hardware.py:86 | No two pads carry the same symbol. |
| Compartments.Compartment.constructor | compartment.py:15-23 | A new compartment is closed, its content present, with one input, one output (driven low) and no LEDs. |
| Compartments.Compartment.AddInput | compartment.py:26-29 | The pin is appended to the door inputs. |
| Compartments.Compartment.AddOutput | compartment.py:33-35 | The pin is appended to the lock outputs; it starts low. |
| Compartments.Compartment.GetInputs | compartment.py:41-46 | The door reads open iff no input reads low (open when there are no inputs). |
| Compartments.Compartment.SetOutputs | compartment.py:48-50 | Every lock output is driven to the given level, and the write is appended to the lock history. |
| Compartments.Compartment.AwaitOpen | compartment.py:56-60 | The polling loop makes `PollsFrom` checks (stop at the first open reading, at most the counter) and logs each one. |
| Compartments.Compartment.Open | compartment.py:52-63 | The lock history grows by exactly one `Pulse`: energise, the `OpenPolls` checks, release, one check. Locks end released, the result is the reading after release, and door and content status are unchanged. |
| Compartments.PulseEnergised | compartment.py:55-63 | Every check of a pulse but the last is made while the locks are energised; the last is made after release, and the locks stay released. |
| Compartments.PollBudget | compartment.py:53-55 | The poll budget is at most 10, exactly 10 for an on-time of 5 s or more, and 0 for a non-positive on-time. |
| Compartments.OpenPollsMeaning | compartment.py:52-61 | `open` polls within budget and stops at the first open reading. A door already open is polled once. |
| Compartments.PollsFromMeaning | compartment.py:57-61 | The polling loop ends at the first open reading or when the budget is spent. |
| Registry.BuildRegistry | code.py:278-308 | The registry has ids "1".."n" for distinct fresh compartments, laid out as `LayoutAfter` for the last large-compartment entry. |
| Registry.LayoutShape | code.py:278-308 | There is one compartment per space, less the absorbed ones. The large compartment `LargeSlot` gets the I/O pair and LED of space s, plus the I/O pair of space s+8 and the LEDs of s+1, s+8 and s+9 for those of these spaces that were detected; every other compartment gets one of each. |
| Registry.PlaceExpander | code.py:286-308 | The eight spaces of an expander advance the layout by eight spaces and keep the filing consistent. |
| Registry.PlaceSpace | code.py:287-308 | One space either joins the large compartment or becomes the next numbered compartment. |
| Registry.AbsorbSpace | code.py:292-299 | An absorbed space adds its LED to compartment s, plus its I/O pair for space s+8. Nothing else changes. |
| Registry.NewCompartment | code.py:301-305 | An ordinary space gets a fresh compartment with that space's pins and LED. |
| Registry.LayoutStep | code.py:287-299 | Each visited space either absorbs into s or appends a plain compartment. |
| Registry.FiledMeaning | code.py:306-307 | The k-th compartment created is filed under str(k), and the keys are exactly "1".."n". |
| Registry.FiledRegistry | code.py:283-308 | The filed map together with the creation order is a registry. |
| Registry.FreshId | code.py:306-307 | A new id is never an existing key. |
| Registry.IdRegistered | code.py:314-315 | Every id "1".."n" is a key of the registry. |
| Registry.CheckAll | code.py:312-317 | `check_all` returns `OpenIds`: the ids whose door reads open, in id order. |
| Registry.OpenIdsMeaning | code.py:312-317 | An id is listed iff it is registered and its door reads open. |
| CodeCheck.CheckCode | code.py:320-338 | The result equals `CodeResult`, the decision tree on length, server status, table and prefix. |
| CodeCheck.BookingCode | code.py:321-330 | A four-character code is an error when the server status is not 200. Otherwise it is valid for the first compartment in table order listing it, and invalid if none does. |
| CodeCheck.NoHolder | code.py:326-330 | No entry lists the code: there is no holder. |
| CodeCheck.FirstHolderAt | code.py:326-329 | The first entry listing the code gives the holder. |
| CodeCheck.MaintenanceCode | code.py:331-336 | An eight-character code never depends on the server. With the prefix it opens its two-digit id with any leading zero dropped; without it, it is invalid. |
| CodeCheck.MaintenanceExamples | code.py:331-334 | "07"+prefix opens "7"; "99"+prefix gives "99". |
| CodeCheck.WrongLengthInvalid | code.py:337-338 | Any other length is invalid whatever the server would answer. |
| CodeCheck.VerdictConsistent | code.py:320-338 | An id comes back iff the status is normal or maintenance. |
| CodeCheck.DigitsReadable | code.py:333 | `int(code[0:2])` can always read the buffer's digits. |
| Common.TwoDigitCanonical | code.py:333-334 | `str(int(s))` of two digits drops a leading zero and is otherwise `s`. |
| Common.JoinSplit | code.py:126 | Splitting a message at spaces loses nothing. |
| Common.NatToStringInjective | code.py:306 | Distinct numbers give distinct ids. |
| Ui.CloseWait | ui.py:166-178 | The wait takes at most 600 polls, and the door status becomes open iff `LeftOpen`. |
| Ui.LeftOpenMeaning | ui.py:166-178 | The door is recorded open iff it read open at every poll up to the 600th poll or up to an x press. |
| Ui.CloseCounterMeaning | ui.py:167-172 | The counter reaches 0 iff the door stayed open until the last poll or until an x. |
| Ui.ClosedAtOnce | ui.py:167 | A door closed at the first poll is recorded closed. |
| Ui.ContentDialogue | ui.py:181-209 | The content status becomes `DialogueOutcome` of the old status and the keys. |
| Ui.DialogueMeaning | ui.py:188-209 | The first ✓ or x within the first 599 polls decides. Otherwise, including an answer at poll 600, the status becomes unknown. |
| Ui.FirstAnswerMeaning | ui.py:188-206 | The answer taken is the first ✓ or x read. |
| Ui.AnsweredMeaning | ui.py:193-206 | From unknown, ✓ gives present and x empty; x keeps a known status and ✓ flips it; after an answer the status is never unknown. |
| Ui.OpenAll | ui.py:83-86 | The compartments are unlocked in id order, "1" first: the unlock order grows by exactly the registered compartments in that order. Each gets exactly one 2 s pulse (`PulsedOnce`) and ends released; door and content status are unchanged. |
| Ui.Serve | ui.py:136-209 | `ServedAs`: one 1 s pulse, then a 3 s pulse only if the first did not report the door open; the lock history and the unlock order show exactly these. Then the close-wait and the dialogue set door and content status, and the pins and LEDs are unchanged. |
| Ui.ProcessCompartment | ui.py:133-228 | `Handled`: no id, or an unknown id other than "99", changes nothing. "99" when unregistered: every compartment is opened once, in id order. A registered id: that compartment is served (one or two pulses) and the others are untouched, lock history included. |
| Commands.CommandShape | code.py:125-148 | Each request needs its verb and word count; the alarm is set only to "on"/"off"; only `status`/`open` can fault. |
| Commands.TargetOf | code.py:128-138 | A compartment is reported on or opened only for a plain id between 1 and the compartment count. |
| Commands.CanonicalTarget | code.py:131-138 | `status n` and `open n` act on compartment n for every n in range. |
| Commands.LeadingZeroFaults | code.py:131-138 | "0n" passes the range test, then the lookup fails. |
| Commands.ArgumentRange | code.py:131-137 | A non-number faults; a number out of range is ignored. |
| Commands.ResetCommand | code.py:141-142 | `reset` alone restarts the board. |
| Commands.EveryCommand | code.py:129-136 | `status all` and `open all` address every compartment. |
| Commands.AlarmCommand | code.py:143-148 | `tamper_alarm on/off` sets that word. |
| Supervisor.Keybox.constructor | code.py:278-352 | The registry is built, the buffer is empty, nothing was pressed, and the counter is 0. |
| Supervisor.Keybox.Press | code.py:366-392 | A key counts once per press. A new press of x or a digit updates the buffer by `Typed`, and a new ✓ is reported. The buffer stays at most 8 digits. |
| Supervisor.Transact | code.py:371-385 | The code is checked and the compartment is handled as `Handled` states for `CodeResult`'s id. The log (`Logged`) records "maintainance" for a maintenance code, plus the served compartment's statuses afterwards. |
| Supervisor.Keybox.ConfirmCode | code.py:368-387 | The old buffer is handled and logged as `Transact` states, and the buffer is emptied. |
| Ui.OpenById | code.py:137-138 | The broker's `open n` gives compartment n exactly one 2 s pulse, leaves it released, and appends it to the unlock order. |
| Supervisor.Keybox.HandleCommand | code.py:125-148 | The request is `ParseCommand`. `status` reports, `open` pulses the named compartment once, or every compartment once in id order, leaving the others untouched; `reset` restarts and `tamper_alarm` sets the alarm. Ignored or faulting messages change nothing. |
| Supervisor.Keybox.Tick | code.py:407-469 | The watchdog fires iff counter % 101 = 0 and the broker poll iff counter % 301 = 0. The keepalive fires iff the counter is 6001, and the reset iff additionally the hour is 3 and uptime > 12000 s. Then 6001 wraps to 1. |
| Supervisor.ClearedBuffer | code.py:386-391 | After x or ✓ the buffer holds the first 8 digits typed since. |
| Supervisor.FoldDigits | code.py:390-391 | Digits fill the buffer up to 8; the rest are dropped. |
| Supervisor.CountClosedForm | code.py:445-469 | For n ≥ 1, pass n sees counter (n−1) mod 6001 + 1; pass 0 sees 0. |
| Supervisor.CountRange | code.py:445-469 | The counter stays within 1..6001 after the first pass. |
| Supervisor.KeepaliveCadence | code.py:445-446 | The keepalive and reset gate run exactly on the passes that are positive multiples of 6001. |
| Supervisor.WatchdogRecurs | code.py:407-408 | The watchdog is fed at least once in every 143 passes. |
| Supervisor.BrokerRecurs | code.py:435-436 | The broker is polled at least once in every 583 passes. |

## Left out

- Display, status LEDs, haptic motor, piezo and backlight are not modelled; only the state they report is. `set_LEDs` never assigns anything in the source either.
- Sleeps and timing are polls, not seconds. The watchdog feeds inside the waits and in `open_all` are not modelled.
- Wi-Fi, the light sensor, the battery monitor and the logging handlers are I/O and are not modelled. The network requests are not made: the code fetch is the parameter `Fetch`, and the code log and the keepalive are values and flags.
- The tamper alarm's accelerometer check is not modelled (a floating-point sensor reading). Only the `tamper_alarm` setting changed by broker commands is modelled.
- `io.loop()` and its MQTT callbacks are not modelled. A message is handed to `HandleCommand`. A handler exception is the request `Fault`, with no state change; the reconnect attempt that follows is networking.
- `microcontroller.reset()` is the outcome `Restarting` or the `reset` duty flag; the restart itself is not modelled.
- The main `while True` loop is not one method. A pass is `Press`, then `ConfirmCode` when ✓ was newly pressed, then `Tick`. The counter over many passes is `CountAt`.
- Configuration is given as parameters. `LARGE_COMPARTMENTS` arrives already converted to integers. As in the source, only its last entry is used. An unset maintenance prefix behaves like one that no six-character suffix equals.
- Python's `int()` is modelled for an optional sign followed by ASCII digits. Surrounding whitespace, underscores and non-ASCII digits are not modelled.
- The source compares strings and the HTTP status with `is`. The model uses equality, which is what those comparisons do for interned literals and small integers.
- A table entry's code list is a list. A server that sent a string there would make `in` a substring test, which is not modelled.
- Pin directions and pull-ups are not modelled. New outputs are assumed to start low.
- Registry.BuildRegistry: requires a non-empty large-compartment list. With an empty `LARGE_COMPARTMENTS` the source raises NameError at code.py:280, because `space` is never bound; that crash is not modelled. The same holds for `Supervisor.Keybox.constructor`.
- Registry.StartResolvable: a large-compartment start below 1 makes the lookup of `str(start)` at code.py:294 and code.py:297-299 raise KeyError. `BuildRegistry` requires a start for which this cannot happen, so that crash is not modelled.
- Supervisor.Keybox.Press: does not model `haptic.play()` at code.py:370. When the haptic driver failed to start, hardware.py:48 leaves `haptic` as None, and every new key press then raises AttributeError and ends the main loop. The model assumes a working driver.
- Ui.ContentDialogue: does not model `haptic.play()` at ui.py:194 and ui.py:201, which raises AttributeError before the status is changed when the haptic driver is missing. The model assumes a working driver.
- CodeCheck.CheckCode: the reply body is a table of ids and code lists. A JSON reply that is not an object would make `valid_codes.items()` at code.py:327 raise; that crash is not modelled.
- Compartments.Compartment.Open: the on-time is an integer. The source divides it by 0.5 as a float, so a fractional on-time would give ceil(2 * on_time) checks. Every caller passes 1, 2 or 3 seconds, where both agree.
- Ui.OpenAll: returns the reports of the `open()` calls, which the source discards.
- Supervisor.Keybox.HandleCommand: the log messages are not modelled, and `status n` returns its readings as a value.
