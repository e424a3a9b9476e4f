# SHT30 temperature/humidity monitor — verified model of its decision logic

`monitor.py` polls an SHT30 sensor, stores each reading in MySQL, mails an
alert when a reading leaves its configured range, and installs and controls
itself as the systemd unit `sht30_logger.service`. Almost all of it is calls
into drivers and libraries; this project models the decisions made between
those calls and proves what they promise:

- `config.dfy` (module `Config`): the settings object, `default_config`, and
  `load_config`, which completes the parsed `config.cfg` in place from the
  defaults, one default key at a time.
- `configure.dfy` (module `Configure`): the interactive `configure` command.
  Each of the fourteen settings becomes `input or current`, passed through
  `int(...)` or `float(...)` for the numeric ones. The fourteen statements are
  a table of prompts, applied in order.
- `cycle.dfy` (module `ProcessReading`): one sampling cycle,
  `process_reading`, as a function from the reading, the settings and the
  `--console` flag to the ordered list of effects: `Persist`, then
  `Email("Temperature Alert")`, then `Email("Humidity Alert")`.
- `loop.dfy` (module `Loop`): the sampling command. `--once` runs one cycle.
  Otherwise the period is raised to at least 5 seconds, then cycles and
  sleeps alternate. Successive sensor readings are a finite input sequence,
  and Ctrl-C comes when that sequence ends.
- `service.dfy` (module `Service`): `is_service_installed` as a substring
  search of the unit listing, and the guarded start/stop/uninstall commands.
- `wrappers.dfy` (module `Wrappers`): `Option` and `Result`.

Settings values are JSON scalars: `Str`, `Int` or `Num`. `Num` is a `real`,
and readings are `real`s; the program only compares them. Python's rules are
kept where they matter:
- comparing a float with a string raises `TypeError`;
- `int()` of a float truncates toward zero;
- `x > high or x < low` does not look at `low` when `x > high` holds.

## Model

| member | source | states |
|---|---|---|
| `Config.DefaultKeysAreDefaultConfigKeys` | monitor.py:31-47 | the loop over `default_config` visits exactly its fourteen keys |
| `Config.Completed` | monitor.py:61-65 | every default key is present afterwards; file keys keep their file values; a key missing from the file gets its default; no other key is added |
| `Config.LoadConfig` | monitor.py:58-67 | for a file holding the object `fields`, the in-place loop yields `Completed(fields)`; an absent file yields exactly `default_config`; an unparsable file is an error; every default key is present on success |
| `Config.CompleteInPlace` | monitor.py:62-64 | the `for key in default_config` loop, adding each missing default to the loaded dictionary, ends with exactly `Completed(fields)`: loaded keys keep their values, missing default keys get their defaults, nothing else is added |
| `Config.LoadSavedIsIdentity` | monitor.py:58-71 | loading settings that already hold every default key gives them back unchanged, so what `save_config` writes after `configure` is what the next load returns |
| `Config.CompletedIdempotent` | monitor.py:61-65 | completing twice is the same as completing once |
| `Configure.ParseInt` | monitor.py:81-83 | accepted iff the text is a non-empty run of digits after an optional `+` or `-`; the value is the digits' decimal value, negated after `-` |
| `Configure.ParseFloat` | monitor.py:87-90 | accepted iff the text is, after an optional sign, digits with at most one `.` and at least one digit (the value of an accepted text is stated by `ParsePointed` and `ParseUnpointed`) |
| `Configure.DecimalSplit` | monitor.py:87-90 | splitting at the first `.` leaves two runs of digits, not both empty, exactly when the text is such a decimal |
| `Configure.ParsePointed` | monitor.py:87-90 | `float` of sign, digits `w`, `.`, digits `f` is `w` plus `f` moved `|f|` places right of the point, negated after `-` (so "27.5" is 27.5, ".5" is 0.5 and "5." is 5) |
| `Configure.TenthsIsPow10` | monitor.py:87-90 | moving digits `n` places right of the point is dividing by `10^n`, so the fraction `f` stands for `f / 10^|f|` |
| `Configure.ParseUnpointed` | monitor.py:87-90 | `float` of sign and digits without a `.` is their decimal value, negated after `-` |
| `Configure.Truncate` | monitor.py:81-83 | `int()` of a float rounds toward zero: the result is within one of the input, on the zero side |
| `Configure.Convert` | monitor.py:81-90 | text settings are kept as typed. `int` keeps an integer, truncates a float and parses a string. `float` widens an integer, keeps a float and parses a string. Only a string the parser rejects fails. Any result has the setting's kind, and a value that already has it is kept |
| `Configure.ApplyField` | monitor.py:77-90 | one prompt sets only its own key. A blank answer converts the current value (so a default `27` under a float prompt becomes `27.0`), keeps one of the right kind exactly, and fails iff the conversion does. A typed answer replaces the value: as text, or as the parsed number, or is rejected with a `ValueError` |
| `Configure.FieldIsLocal` | monitor.py:77-90 | a prompt's verdict and new value depend on the settings only through its own key |
| `Configure.ApplyAll` | monitor.py:77-90 | folds the fourteen prompts over the settings in order, stopping at the first failure. A success consumed an answer for every prompt and leaves the key set unchanged |
| `Configure.ApplyAllSets` | monitor.py:77-90 | the fold succeeds iff every prompt has an answer that its own line accepts. On success the key set is unchanged, unprompted keys are untouched, and each prompted key ends as its own line would set it from the settings before all prompts |
| `Configure.ApplyAllRejects` | monitor.py:77-90 | a failure is the failure of the first prompt that fails, and of no other: every earlier prompt had an answer its line accepted, and that prompt either met the end of input (`EndOfInput`) or raised its `ValueError`. A rejected answer therefore wins over answers missing later |
| `Configure.SetKeepsKinds` | monitor.py:81-90 | after the prompts, every prompted key holds a value of the kind its conversion produces (`int(...)` an integer, `float(...)` a float, a text line a string) |
| `Configure.PromptsCoverDefaults` | monitor.py:77-90 | the fourteen prompts ask for distinct keys, all present in any loaded settings |
| `Configure.ConfiguredKinds` | monitor.py:81-90 | after every prompt is answered, frequency and SMTP port are integers and the four thresholds are floats |
| `Configure.Configure` | monitor.py:75-91 | an unparsable file is `load_config`'s error. On a loaded file it succeeds iff every one of the fourteen answers is accepted by its line. Each prompted setting is then what its line makes of the loaded value, and other settings are kept. Every default key is present, and the numeric settings have their numeric kinds |
| `Configure.ConfigureStopsAtFirstFailure` | monitor.py:75-90 | on a loaded file, `configure` fails with exactly the error of its first failing prompt, in the order the lines run |
| `Configure.RejectedPeriodComesFirst` | monitor.py:77-81 | whatever config.cfg holds, four blank answers and `abc` for the period raise `ValueError` at the period's line, although the answers run out before the SMTP port is asked for |
| `Configure.BlankAnswersKeep` | monitor.py:77-90 | pressing Enter at prompts whose settings already have their kinds leaves the settings unchanged |
| `Configure.ReconfigureWithBlanks` | monitor.py:58-91 | running `configure` on the file it wrote and pressing Enter at every prompt writes the same settings again |
| `ProcessReading.OutOfRange` | monitor.py:276 | with numeric bounds, an alert is due iff the value is strictly above `high` or strictly below `low`; a string `high` raises; a string `low` raises only when `x > high` is false |
| `ProcessReading.Cycle` | monitor.py:266-289 | `--console` yields only mails; otherwise the first effect persists the reading and everything after it is a mail; at most three effects; numeric thresholds never raise |
| `ProcessReading.AlertRule` | monitor.py:275-289 | the mails of a cycle are exactly the temperature alert iff the temperature is strictly outside its bounds, then the humidity alert iff the humidity is strictly outside its own: zero, one or two mails, temperature first |
| `ProcessReading.BoundsAreInRange` | monitor.py:284 | with `low <= high`, a reading equal to either bound sends no alert, for temperature and for humidity |
| `ProcessReading.DatabaseOutcomeIrrelevant` | monitor.py:272-289 | how the insert went never changes the cycle's effects or outcome |
| `ProcessReading.CycleAsWritten` | monitor.py:99-122 | when `connect` raises outside `--console`, the cycle ends after the persist attempt with the unbound-`connection` error and checks no threshold |
| `ProcessReading.AsWrittenDiffersOnlyOnConnectFailure` | monitor.py:99-122 | the code as written matches the intended cycle iff `--console` is set or `connect` did not raise |
| `ProcessReading.ConnectFailureSuppressesAlert` | monitor.py:115-122 | with default thresholds, a 30 degree reading and an unreachable database, the code as written sends no mail; the intended cycle sends the temperature alert |
| `Loop.Raised` | monitor.py:296-300 | a string period raises. A numeric period below 5 becomes the integer 5, with exactly one log line. A period of 5 or more is left alone with no log line. Other settings are untouched, and the period afterwards is at least 5 |
| `Loop.RaiseFrequency` | monitor.py:296-300 | the in-place overwrite of the period produces exactly `Raised` |
| `Loop.Continuous` | monitor.py:301-303 | the loop begins no more cycles than there are readings and never ends as `Completed` |
| `Loop.Poll` | monitor.py:301-303 | the `while True` loop of cycle-then-sleep yields exactly `Continuous` |
| `Loop.MonitorLoop` | monitor.py:295-303 | the continuous branch yields the period check's log line followed by the loop on the checked settings (`Looping`) |
| `Loop.Monitor` | monitor.py:291-303 | the sampling command yields exactly `Sampling` |
| `Loop.ContinuousEffects` | monitor.py:301-303 | in the loop every sleep lasts the checked period, the period log line never recurs, and `--console` never persists |
| `Loop.ContinuousSleeps` | monitor.py:301-303 | every completed cycle is followed by one sleep: an interrupted run slept once per cycle, a crashed one once less. With numeric thresholds only the sensor can crash it |
| `Loop.OnceIsOneCycle` | monitor.py:291-294 | `--once` with a reading begins exactly one cycle and does not end as interrupted. Its trace is that cycle's effects: no sleep and no period line, whatever the period holds |
| `Loop.LoopPeriod` | monitor.py:296-303 | a numeric period below 5 gives exactly one log line, first in the trace, and every sleep lasts 5 seconds. A period of 5 or more gives no log line, and every sleep lasts that period |
| `Loop.ConsoleNeverPersists` | monitor.py:272-273 | with `--console` no run, once or continuous, ever persists |
| `Loop.NumericSettingsOnlySensorCrashes` | monitor.py:265-306 | with numeric thresholds and period, a run ends completed, interrupted, or crashed by the sensor, never by a comparison |
| `Loop.ConfiguredSettingsAreNumeric` | monitor.py:75-91 | settings written by `configure` have numeric thresholds and a numeric period |
| `Loop.TypedSettingsAreNumeric` | monitor.py:81-90 | settings whose period is an integer and whose four thresholds are floats satisfy what `process_reading` needs to compare and what the loop needs to sleep |
| `Service.Contains` | monitor.py:56 | Python's `t in s` on strings holds iff `t` occurs in `s` as a contiguous piece |
| `Service.IsServiceInstalled` | monitor.py:54-56 | installed iff `sht30_logger.service` occurs in the `systemctl list-units` output |
| `Service.ServiceCommands` | monitor.py:183-211 | start, stop and uninstall issue commands iff the unit is installed, and then exactly their `systemctl`/`rm` invocations |
| `Service.AnyMentionCounts` | monitor.py:56 | any listing containing the unit name, even inside a longer word, counts as installed |
| `Service.NotInstalledIssuesNothing` | monitor.py:204-211 | a listing without the unit name makes start, stop and uninstall issue no command |

## Findings

| source | as written | input that shows it | evidently intended | confidence | as-written member | corrected member |
|---|---|---|---|---|---|---|
| monitor.py:100-122 | `connection` is first bound inside `try`. When `mysql.connector.connect` raises, the `except` clause logs the error, then `finally` calls `connection.is_connected()` on the unbound name. The resulting `UnboundLocalError` escapes `process_reading` before either threshold is checked | database unreachable, no `--console`, default thresholds, temperature 30 | a database failure is logged and the cycle goes on to its alerts | not executed | `ProcessReading.CycleAsWritten` | `ProcessReading.Cycle` |

The lemmas `AlertRule`, `BoundsAreInRange` and `DatabaseOutcomeIrrelevant`
hold of the corrected `Cycle`. Under `--console`, and whenever `connect`
succeeds, it agrees with the code as written
(`AsWrittenDiffersOnlyOnConnectFailure`).

## Left out

- The sensor driver (`busio`, `adafruit_sht31d`): each reading is an input `Sample`, and a driver exception is the `SensorFailed` sample.
- The MySQL insert: only the `Persist` effect is modelled. The driver's behaviour is the `DbOutcome` input. The error-log line that `log_data` writes on a database error is not in the trace.
- The SMTP send: only `Email(subject)` is modelled. The body text, the MIME headers and the `Date` header are not. `send_email` catches every failure, so a failed send changes nothing later in the model.
- `create_service`: the unit-file template and the `mv`/`daemon-reload`/`enable`/`start` sequence are operating-system I/O and are not guarded by the install check.
- The command-line dispatch (monitor.py:219-263) and all `--verbose` output: argument parsing and printing.
- JSON encoding and decoding: a file that does not parse is the `Malformed` case. Booleans, `null`, arrays, nested objects and a top-level value that is not an object are not modelled.
- `load_config` returns the module's own `default_config` dictionary when there is no file, and `configure` then mutates it in place. Within one process this cannot be observed, so the model works on values.
- `Configure.ParseInt`: Python's `int()` also accepts surrounding whitespace, `_` between digits, and decimal digits of other scripts (Arabic-Indic, fullwidth and so on). Such answers are rejected here.
- `Configure.ParseFloat`: Python's `float()` also accepts surrounding whitespace, `_` between digits, decimal digits of other scripts, exponents, `inf`, `infinity` and `nan`, and it rounds to binary floating point. Such answers are rejected here, and accepted decimals are exact reals.
- `NaN` and `Infinity` in `config.cfg`: Python's `json.load` accepts them, but a `Num` holds only a finite real. A file holding them is not modelled.
- `Loop.ContinuousSleeps`, `Loop.NumericSettingsOnlySensorCrashes`: the sampling loop is built on the corrected `Cycle`, so "only the sensor can crash it" holds of the corrected program only. In the code as written, a `ConnectFailed` sample ends the continuous run with `UnboundLocalError` (monitor.py:120). For the same reason the `db` field of a `Sample` has no effect anywhere in `Loop`.
- `Loop.Continuous`: Ctrl-C is taken only between a sleep and the next read, not in the middle of a cycle or a sleep. The `while True` loop runs for as many readings as the input holds.
- `ProcessReading.CycleAsWritten`: a `connection.cursor()` call that raises leaves `cursor` unbound in the same `finally` clause. That case is not modelled separately.
- Timestamps, the error-log file, and the length of real time a sleep takes.
