# Fog controller — a verified model

The fog controller is two programs. `server.js` is a small Express server. It
turns a fog machine on and off, keeps a statistics record, and runs
"Auto-Fog": a periodic "on" every 2, 5 or 10 minutes that switches itself
off after one hour. `fog-controller.py` is the script the server starts for
each actuation. It drives a 433 MHz transmitter on a GPIO pin with the RCSwitch
"Protocol 1" pulse timing.

This project models the state logic of both programs in Dafny and proves
the following about that model:

- **Server records** (`stats.dfy`, `auto_fog.dfy`).
  - `config` is the class `Stats.FogConfig` and `autoFogState` is the class
    `AutoFog.AutoFogState`. Each has the source's fields.
  - Each method is tied to a pure transition function, `AfterCommand`,
    `AfterReset`, `StartTransition` or `StopTransition`. The properties are
    proved about those functions and about whole histories of calls, in
    `ReplayFromDefault` and `NoLeakedHandles`.
- **Input checks** (`validation.dfy`).
  - The command list.
  - The interval check `!interval || ![2, 5, 10].includes(parseInt(interval))`,
    with JavaScript's `parseInt` modelled on text: white space, sign, "0x"
    prefix and the longest run of digits.
  - The custom code's regular expression `^[0-9A-Fa-f]+$`.
- **Routes** (`routes.dfy`). The state-changing HTTP handlers, as control
  flow with their status codes, over one `FogServer` holding both records.
  The cron and timeout callbacks are the methods `CronFires` and
  `CeilingFires`.
- **Hourly fill** (`analytics.dfy`). The 24-slot fill loop of
  `getUsageAnalytics`, as a method with loop invariants.
- **Transmitter** (`rf433.dfy`).
  - `RF433Controller` is a class whose pin writes and sleeps become an event
    trace of levels and sleeps counted in pulse units.
  - `send_code`'s nested loop is proved to emit exactly
    `Transmission(code, length, repeat_transmit)`.
  - A receiver model (`Rf433Receiver`) reads that trace back. It proves that
    every frame decodes to `code mod 2^length`, that there are exactly
    `repeat_transmit` frames, and that a frame lasts `4·length + 32` pulse
    units.
- **Script entry point** (`cli.dfy`). `main`'s dispatch and cleanup. The
  `int(text, 0)` conversion of `--code` is in `code_argument.dfy`.

Nothing outside the two programs' own logic is modelled. Clock readings,
scheduler handles, the outcome of the subprocess and scheduling failures
are parameters of the operations that use them.

Two behaviours of the code are worth knowing:

- A second enable while Auto-Fog is running is not an error. `startAutoFog`
  returns silently (server.js:179-182), and the enable route answers 200
  (server.js:449-454). `Routes.FogServer.EnableAutoFog` states this.
- When `cronJob.start()` or `setTimeout` throws, the rollback clears only
  `active`. The cron job stays stored, so every later start is a silent
  no-op until a stop (server.js:204-217). `AutoFog.FailedStartKeepsJob`
  states this.

## Model

| member | source | states |
|---|---|---|
| Validation.IsValidCommand | server.js:248-249 | a command is valid exactly when it is "on" or "off" |
| Validation.ParseIntText | server.js:441 | `parseInt` of a text yields NaN exactly when, after white space, an optional sign and an optional "0x", no digit of the chosen radix follows |
| Validation.ParseInt | server.js:441 | `parseInt(interval)`: a missing member is NaN; a number below 10^21 in magnitude reads back as itself; a number of 10^21 or more in magnitude is written in exponent form, so only its sign and the leading digit (1 to 9) of its exact value are read; a text is read by `ParseIntText` |
| Validation.HugeIntervalReadAsLeadingDigit | server.js:441 | the number 2e21 reads as 2, so the route accepts it as a 2-minute interval |
| Validation.CheckInterval | server.js:441 | an interval is accepted exactly when `parseInt` of it is 2, 5 or 10, and the accepted value is that number |
| Validation.IntervalWithTrailingText | server.js:441 | " 10min" is accepted as 10, because `parseInt` stops at the first non-digit |
| Validation.IntervalInHex | server.js:441 | "0x5" is accepted as 5, because `parseInt` reads the "0x" prefix as radix 16 |
| Validation.NegativeIntervalRefused | server.js:441 | "-5" is refused, because `parseInt` reads it as -5 |
| Validation.HexDigitClass | server.js:394 | the character class `[0-9A-Fa-f]` is exactly the 22 characters 0-9, A-F and a-f |
| Validation.MatchesHexCode | server.js:394 | `^[0-9A-Fa-f]+$` matches exactly the non-empty strings whose every character is a hex digit |
| Validation.CheckCustomCode | server.js:385-399 | a missing or empty code is refused as missing; the code is accepted exactly when it is non-empty and all hex digits, and the accepted code is the input |
| Stats.AfterCommand | server.js:245-289 | an invalid command leaves `config` unchanged and never succeeds; success means a valid command and a successful subprocess; failure leaves `config` unchanged; success sets `lastCommand`; "on" sets `fogActive`, stamps `lastActivated` and adds exactly 1 to `activationCount`; "off" clears `fogActive` and keeps the count; the statistics invariant is kept |
| Stats.AfterReset | server.js:372-375 | the reset zeroes `activationCount` and clears `lastActivated`, keeps `lastCommand` and `fogActive`, and leaves the invariant holding |
| Stats.ToggleCommand | server.js:355 | the toggle always picks a valid command, and it picks "on" exactly when the fog is not active |
| Stats.ToggleFlips | server.js:353-356 | a toggle never meets an invalid command, and when the actuation succeeds it flips `fogActive` |
| Stats.ReplayFromDefault | server.js:272-284 | starting from the default record, after any history of commands and resets, `activationCount` is the number of successful "on"s since the last reset, `lastCommand` is the last successful command, and the fog is active exactly when that command was "on" |
| Stats.FogConfig.constructor | server.js:51-57 | a fresh record holds the default values |
| Stats.FogConfig.ExecuteCommand | server.js:245-289 | the record's new value and the outcome are those of `AfterCommand` |
| Stats.FogConfig.ResetStats | server.js:372-375 | the record's new value is that of `AfterReset` |
| AutoFog.InitialConsistent | server.js:74-81 | the initial record is inactive, holds no handles, and is consistent |
| AutoFog.StartTransition | server.js:177-218 | when already active or holding a cron job, a start changes nothing and returns normally; a start that gets through sets every field, with a ceiling exactly one hour after `now`; it throws exactly when a scheduling call fails, and then `active` is rolled back to false; consistency is kept |
| AutoFog.StopTransition | server.js:220-236 | a stop clears `active`, both handles and both times, keeps `interval`, leaves the record consistent, and changes nothing when Auto-Fog is already stopped |
| AutoFog.StopIdempotent | server.js:220-236 | stopping twice is the same as stopping once |
| AutoFog.SecondStartIsNoOp | server.js:179-182 | a second start after a successful one changes nothing and keeps the first cron job |
| AutoFog.StartAfterStop | server.js:177-236 | after a stop, a start goes through again |
| AutoFog.FailedStartKeepsJob | server.js:190-217 | a start that throws after the cron job was created leaves `active` false but the job stored, so the next start is a silent no-op |
| AutoFog.NoLeakedHandles | server.js:177-236 | along any history of starts and stops from the initial record, the record stays consistent, and the live cron jobs and timeouts are exactly those the record holds (at most one of each) |
| AutoFog.AutoFogState.constructor | server.js:74-81 | a fresh record holds the initial values |
| AutoFog.AutoFogState.StartAutoFog | server.js:177-218 | the record's new value and whether the call returns normally are those of `StartTransition` |
| AutoFog.AutoFogState.StopAutoFog | server.js:220-236 | the record's new value is that of `StopTransition` |
| Analytics.Find | server.js:148 | `find` returns nothing exactly when no row has the hour, and otherwise a row of the input with that hour |
| Analytics.CountAt | server.js:151 | `found ? found.count : 0` is 0 when no row has the hour, and any other value is the count of a row with that hour |
| Analytics.FirstRowIsFound | server.js:148 | `find` returns the first row that has the hour |
| Analytics.FillHours | server.js:145-153 | the result has exactly 24 entries, entry i is hour i, an hour with no row counts 0, and an hour with rows carries the first such row |
| Routes.CustomCodeRouteAsWritten | server.js:383-425 | the subprocess starts exactly when the code is present and all hex digits, and it gets the code bare; a code that the script's `int(text, 0)` refuses always answers 500; otherwise the answer is 200 or 500 by the subprocess outcome; 400 when nothing starts |
| Routes.AsWrittenRouteFailsOnLetters | server.js:403 | "1A2b" passes the route's check and is passed bare, and the route answers 500 whatever the transmitter does |
| Routes.CustomCodeRoute | server.js:383-425 | the corrected route: the subprocess starts exactly when the code is present and all hex digits, with the argument "0x" and the code, which the script reads as the code's hex value; the answer is 200 or 500 by the subprocess outcome, and 400 when nothing starts |
| Routes.CustomCodeAccepted | server.js:394-417 | in the corrected route, "1A2b" is accepted and sent as "0x1A2b" |
| Routes.CustomCodeRefused | server.js:385-399 | "1A2Z", an empty code and a missing code get 400 |
| Routes.FogServer.constructor | server.js:71-81 | the server starts with the default `config` and the initial `autoFogState` |
| Routes.FogServer.FogOn | server.js:317-332 | `config` follows `AfterCommand` for "on", and the answer is 200 exactly when the actuation succeeds, otherwise 500 |
| Routes.FogServer.FogOff | server.js:335-350 | `config` follows `AfterCommand` for "off", and the answer is 200 exactly when the actuation succeeds, otherwise 500 |
| Routes.FogServer.Toggle | server.js:353-369 | the command sent is the opposite of `fogActive`; on success `fogActive` is flipped; the answer is 200 or 500 |
| Routes.FogServer.ResetStats | server.js:372-380 | `config` follows `AfterReset`, and the answer is 200 |
| Routes.FogServer.EnableAutoFog | server.js:438-462 | an interval that is not 2, 5 or 10 gets 400 and leaves Auto-Fog untouched; otherwise the record follows `StartTransition`, with 500 exactly when it throws; an enable while Auto-Fog is running answers 200 and changes nothing; the stored interval stays in {2, 5, 10} |
| Routes.FogServer.DisableAutoFog | server.js:464-478 | the record follows `StopTransition`, and the answer is 200 |
| Routes.FogServer.CronFires | server.js:190-196 | a cron firing is an "on" command whose failure is swallowed; it leaves the Auto-Fog record unchanged |
| Routes.FogServer.CeilingFires | server.js:207-210 | the one-hour timeout is a stop, and it leaves `config` unchanged |
| CodeArgument.PrefixRadix | fog-controller.py:116 | `int(text, 0)` picks radix 2, 8 or 16 exactly when the text starts with "0b", "0o" or "0x" (in either case), and radix 10 otherwise |
| CodeArgument.PythonInt | fog-controller.py:116 | `int(text, 0)`, over ASCII digits, reads a text with a prefix exactly when one or more digits of that radix follow it; without a prefix, exactly when the text is decimal digits with no leading zero, unless all of them are zero |
| CodeArgument.HexArgument | server.js:403 | the code behind a "0x" prefix is read by the script as the code's hex value |
| CodeArgument.BareCodeRefused | server.js:403 | "1A2b", which the server accepts, is refused by `int(text, 0)` when passed bare |
| CodeArgument.BareCodeReadAsDecimal | fog-controller.py:116 | "10" passed bare is read as 10, while its hex value is 16 |
| CodeArgument.BareCodeReadAsBinary | fog-controller.py:116 | "0b1" passed bare is read as the binary 1, while its hex value is 177 |
| Rf433.ShiftAndMask | fog-controller.py:82 | `(code >> i) & 1` is always 0 or 1; the shift rounds toward negative infinity, and `& 1` is the remainder modulo 2 that is never negative |
| Rf433Receiver.ShiftOneMore | fog-controller.py:82 | shifting by `i + 1` is shifting by 1 and then by `i`, negative codes included |
| Rf433Receiver.MinusOneAllOnes | fog-controller.py:82 | every bit of -1 is 1, as in Python's two's complement reading of negative integers |
| Rf433.FrameBits | fog-controller.py:81-82 | a frame has `length` bits, and bit k is bit `length - 1 - k` of the code, most significant first (`FrameValue` proves they stand for `code mod 2^length`) |
| Rf433.Rf433Controller.constructor | fog-controller.py:25-46 | the pin's first event is a LOW write, and `repeat_transmit` starts at 10 |
| Rf433.Rf433Controller.Cleanup | fog-controller.py:48-53 | cleanup leaves the chip closed |
| Rf433.Rf433Controller.TransmitBit | fog-controller.py:55-68 | a non-zero bit appends HIGH for 3 units then LOW for 1; a zero bit appends HIGH for 1 then LOW for 3 |
| Rf433.Rf433Controller.TransmitSync | fog-controller.py:70-75 | the sync mark appends HIGH for 1 unit then LOW for 31 |
| Rf433.Rf433Controller.SendCode | fog-controller.py:77-89 | the trace grows by exactly `repeat_transmit` frames, each the `length` bits MSB first and a sync mark, and then a final LOW write |
| Rf433.Rf433Controller.TurnOn | fog-controller.py:91-96 | sends CODE_ON with 24 bits, and reports success |
| Rf433.Rf433Controller.TurnOff | fog-controller.py:98-103 | sends CODE_OFF with 24 bits, and reports success |
| Rf433.Rf433Controller.SendCustomCode | fog-controller.py:105-110 | sends the given code with 24 bits, and reports success |
| Rf433Receiver.ReadWaves | fog-controller.py:55-75 | reading the trace of any symbol sequence back, four events at a time, gives that sequence again |
| Rf433Receiver.SplitRepeated | fog-controller.py:79-86 | a frame repeated n times splits at its sync marks into exactly n copies of its bits |
| Rf433Receiver.FrameValue | fog-controller.py:80-83 | a frame's bits, read most significant first, stand for `code mod 2^length` |
| Rf433Receiver.TransmissionRoundTrip | fog-controller.py:77-89 | a receiver reads the whole transmission as `repeat_transmit` frames (none for a negative count), each `code mod 2^length` |
| Rf433Receiver.OnOffCodesRoundTrip | fog-controller.py:32-33 | CODE_ON and CODE_OFF differ and lie below 2^24, so both come back whole from a 24-bit transmission |
| Rf433Receiver.BitsUnits | fog-controller.py:55-68 | every bit lasts 4 pulse units, whatever its value |
| Rf433Receiver.FrameUnits | fog-controller.py:70-75 | a frame lasts `4·length + 32` units, which is 128 units (40960 µs) for 24 bits |
| Rf433Receiver.TransmissionUnits | fog-controller.py:77-89 | the whole transmission lasts `repeat_transmit · (4·length + 32)` units |
| FogCli.RunCommand | fog-controller.py:112-148 | a `--code` that `int(text, 0)` refuses exits 2 before anything opens; if the chip cannot be opened, it exits 1 with nothing sent and no cleanup; otherwise "on" and "off" send their code with exit 0, "custom" without a code exits 1 having only written LOW, and "custom" with a code sends it with exit 0; cleanup runs on every path once a controller exists |

## Left out

- HTTP plumbing is not modelled: Express routing, CORS, the static-file headers, response bodies, and the read-only routes (`/api/health`, `/api/status`, `/api/auto-fog/status`, `/api/analytics/usage`).
- MySQL is not modelled: the connection, the table, `logActivation`, and the two SQL queries with the peak hour. Only the 24-slot fill loop over the hourly rows is kept.
- Loading and saving `fog-config.json`, and `pythonScriptPath`, are file I/O. `saveConfig` swallows its own errors, so leaving it out changes no state.
- `node-cron` and `setTimeout` are opaque handles handed in as parameters. Their callbacks run only when a caller invokes `CronFires` or `CeilingFires`.
- The `execFile('sudo', ...)` subprocess is a boolean outcome (`mechanismOk`). `FogCli.RunCommand` models the script's own exit status separately.
- `new Date().toISOString()` and `Date.now()` are one integer clock reading, `now`. The code reads the clock twice in `startAutoFog`, and the model uses one reading.
- AutoFog.StartTransition: `fault` says which scheduling call throws. A `cronJob.start()` or `setTimeout` failure leaves the job stored. Whether the job then keeps firing is not modelled.
- Validation.CheckInterval: a missing member, `null`, `true` and `false` are all `Absent`, which `parseInt` reads as NaN. An array or object is not modelled. Numbers are taken to be integers that a double holds exactly. Fractions, and large numbers that rounding to a double changes, are not modelled.
- Validation.ParseInt: from 10^21 on, reads the leading digit of the exact integer, while JavaScript prints the shortest decimal that rounds to the same double. For 49999999999999995805696, the double nearest 5e22, JavaScript prints "5e+22" and reads 5, while the model reads 4.
- Validation.CheckCustomCode: a JSON value for `code` that is not a string is not modelled.
- Concurrency is not modelled. Each route and callback is one atomic step. This is exact for `startAutoFog`, `stopAutoFog` and the statistics reset, which run synchronously. The on, off and toggle routes and the cron callback are not atomic: they await the subprocess, and their `config` update runs in the `execFile` callback afterwards (server.js:259-287). The model therefore loses interleavings such as two toggles in flight. Both read `fogActive` as false when they arrive (server.js:355), and both send "on".
- Graceful shutdown, `process.exit` and `app.listen` are not modelled.
- `lgpio` is a trace of writes and sleeps. Errors from `gpio_write` during a transmission are not modelled. A failure to open the chip or to claim the pin is the `chip` parameter of `FogCli.RunCommand`, and that parameter does not tell the two apart.
- `time.sleep`'s floating-point seconds are integer pulse units of 320 µs each.
- Rf433.Rf433Controller.SendCode takes `length` as a natural number. The source only ever uses the default, 24.
- Only the `--code` conversion of argparse is modelled. `--command` choices, `--gpio` and `--repeats` arrive already parsed.
- CodeArgument.PythonInt: signs, white space, underscores and non-ASCII decimal digits (such as '١٢', which Python reads as 12), all of which `int(text, 0)` also accepts, are not modelled; `FogCli.RunCommand` therefore exits with status 2 for `--code ١٢`, where the script would send 12. The text the server passes is a non-empty string of hex digits: bare as written, behind "0x" in the corrected route. Neither contains any of them.
- Routes.CustomCodeRoute: passes the corrected argument, "0x" and the code, not the bare code that server.js:403 passes. The code as written is `Routes.CustomCodeRouteAsWritten`; the Findings table gives the difference.
- ecosystem.config.js (process-manager configuration) and light-sensor/light-sensor.py (a polling loop that prints) are not modelled.

## Findings

| source | as written | input that shows it | evidently intended | confidence | as-written member | corrected member |
|---|---|---|---|---|---|---|
| server.js:403 | the custom code route passes the code's bare hex digits to `--code`, which the script converts with `int(text, 0)` (fog-controller.py:116) | "1A2b" passes the route's hex check but is refused by the script, so the route answers 500; "10" is sent as 10 instead of 0x10; "0b1" is sent as binary 1 | the script receives the code as a hex number, for example behind a "0x" prefix | not executed | Routes.CustomCodeRouteAsWritten, Routes.AsWrittenRouteFailsOnLetters, CodeArgument.BareCodeRefused, CodeArgument.BareCodeReadAsDecimal, CodeArgument.BareCodeReadAsBinary | CodeArgument.HexArgument, used by Routes.CustomCodeRoute |
