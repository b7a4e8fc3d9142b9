# Pool temperature logger, modelled in Dafny

`get_sensor_data.py` runs on a Raspberry Pi. It reads a DS18B20
one-wire temperature sensor through the kernel's `w1_slave` file. Each
reading goes to an Initial State bucket through an `ISStreamer` client.
At start-up the script checks the API key and the sensor's device file.
It then loops forever:

- read the device file with `cat`;
- split the output into lines;
- find `t=` in the second line and parse the millidegree value after it;
- convert it to Celsius and Fahrenheit;
- log the temperature in the chosen units and print it;
- sleep.

A keyboard interrupt closes the streamer.

The model has these modules:

- `Wrappers`: `Option` and `Result`.
- `Text`: Python's `str.find` and `str.split('\n')`, with `Join` as the partner of `Split`.
- `Decimal`: the text after `t=` as an optional sign followed by decimal digits, with its inverse rendering.
- `Reading`:
  - `save_result` as the function `SaveResult`, with the exceptions it raises as values;
  - the two unit conversions;
  - the line split of `read_temp_raw`.
- `Startup`: the API-key and sensor-file checks, as the function `Configure`.
- `Polling`:
  - `main`;
  - a `Streamer` class that records the `log` and `close` calls it receives;
  - the method `Poll`, which runs the loop over a sequence of `cat` outputs;
  - the specification `Trace`, which states which events are logged, what is printed and how the run ends.

In the code, only `KeyboardInterrupt` is caught around the loop.
`IndexError` is raised when the output has fewer than two lines, for instance when the device file is missing and `cat` prints nothing.
`ValueError` is raised when the text after `t=` is not a number.
Both escape `main`, and then the streamer is never closed.
A negative `--delay` makes `time.sleep` raise after the first cycle, which escapes `main` in the same way.
The model follows the code: the first such exception ends the run. Skipping the bad cycle and reading on is not modelled.

## Model

| member | source | states |
|---|---|---|
| Text.Find | get_sensor_data.py:71 | `-1` exactly when the pattern does not occur; otherwise the pattern occurs at the result and at no earlier index |
| Text.Split | get_sensor_data.py:67 | one piece more than there are separators; no piece contains the separator |
| Text.JoinSplit | get_sensor_data.py:67 | joining the pieces of a split with the separator gives back the original output |
| Text.SplitJoin | get_sensor_data.py:67 | splitting the join of separator-free pieces gives back the pieces |
| Reading.ReadTempRaw | get_sensor_data.py:66-68 | the output always splits into at least one line, even when it is empty |
| Reading.ReadTempRawLines | get_sensor_data.py:66-68 | the lines joined with newlines give back the output; there is one line more than there are newlines, and no line holds a newline |
| Decimal.ParseInteger | get_sensor_data.py:74 | a text is accepted exactly when it is an optional `+` or `-` followed by one or more digits (a lone sign and the empty text are rejected); a negative value needs a leading `-` |
| Decimal.ParseEveryForm | get_sensor_data.py:74 | the value of every accepted text: leading zeros then the digits of `n` read as `n`, with `+` as `n`, and with `-` as `-n` |
| Decimal.ParseRoundTrip | get_sensor_data.py:74 | every integer rendered in decimal parses back to itself |
| Reading.ToCelsius | get_sensor_data.py:74 | the Celsius value is the millidegree reading divided by 1000 |
| Reading.ToFahrenheit | get_sensor_data.py:75 | the Fahrenheit value converts back to the Celsius input |
| Reading.Converted | get_sensor_data.py:74-76 | the value logged is the Celsius reading (a thousandth of the payload) with `C`, and with `F` the Fahrenheit value whose conversion back gives that reading |
| Reading.ConversionExample | get_sensor_data.py:74-75 | a reading of 23312 is 23.312 °C and 73.9616 °F |
| Reading.SaveResult | get_sensor_data.py:70-79 | `IndexError` exactly when there are fewer than two lines; `ValueError` only when the second line holds `t=`; a normal return logs exactly when the second line holds `t=`; without `t=` it logs nothing and prints the parse error with all lines; a logged event is keyed by the sensor id, and the printed temperature is the logged value with the units symbol |
| Reading.SaveResultReadsAfterFirstMarker | get_sensor_data.py:71-77 | the value is read after the FIRST `t=` of the second line: an unparseable tail raises `ValueError`; otherwise it logs and prints the converted tail in the chosen units |
| Reading.EmptyPayloadRaises | get_sensor_data.py:73-74 | a second line that ends right after its first `t=` raises `ValueError` |
| Reading.StatusLineIgnored | get_sensor_data.py:70-79 | whether the call returns normally, and what it logs, depend only on the second line, not on the CRC status line or the other lines |
| Reading.NoMarkerWithoutT | get_sensor_data.py:71-72 | a line without the letter `t` has no `t=` marker |
| Reading.EmptyOutputRaises | get_sensor_data.py:66-71 | an empty `cat` output splits into one empty line, so `save_result` raises `IndexError` |
| Reading.SampleReading | get_sensor_data.py:71-77 | a typical DS18B20 reading with `t=23312` logs 73.9616 printed with `F`, or 23.312 with `C` |
| Startup.MatchAlnumRun | get_sensor_data.py:45 | a key that matches is at least 32 characters long |
| Startup.MatchAlnumRunMeaning | get_sensor_data.py:45 | the start-anchored match of 32 alphanumerics holds iff the first 32 characters are ASCII letters or digits |
| Startup.KeyFormatMeaning | get_sensor_data.py:45 | the key format test is the 32-character alphanumeric prefix test |
| Startup.TrailingCharactersIgnored | get_sensor_data.py:45 | a key that passes still passes with any characters appended, because the match is anchored only at the start |
| Startup.SensorPath | get_sensor_data.py:49 | the device path is the base directory, then the sensor id, then `/w1_slave`, each at its place |
| Startup.SensorOfPath | get_sensor_data.py:49 | a recovered sensor id rebuilds exactly the given device path |
| Startup.SensorPathRoundTrip | get_sensor_data.py:49 | the sensor id is recovered from the device path built from it |
| Startup.ChosenKey | get_sensor_data.py:39-43 | a non-empty preset key is kept; otherwise the command-line key is taken |
| Startup.Configure | get_sensor_data.py:39-54 | The faults are checked in the script's order. "APIKey Required" is reported exactly when both keys are empty. "Invalid APIKey format" is reported exactly when a key is given but the chosen key (a non-empty preset key wins) does not begin with 32 ASCII alphanumerics. "Invalid Sensor" is reported exactly when the key is well formed but the device file does not exist. Start-up succeeds exactly when the key is well formed and the device file exists. On success the configuration carries the key, the sensor, the bucket, the bucket key and the delay, with Celsius exactly when `--celsius` is given. An invalid-sensor fault names the missing device path of that sensor. |
| Polling.Streamer.constructor | get_sensor_data.py:83 | the streamer holds the bucket, the key and the bucket key; nothing has been logged yet and it has not been closed |
| Polling.Streamer.Log | get_sensor_data.py:76 | appends exactly one event and leaves the close count unchanged |
| Polling.Streamer.Close | get_sensor_data.py:92 | counts one more close call; the logged events are unchanged |
| Polling.SaveResultTo | get_sensor_data.py:70-79 | the streamer receives exactly the events `SaveResult` sends, and nothing when it raises; the result is the printed line or the exception |
| Polling.Poll | get_sensor_data.py:82-92 | logs, prints and ends exactly as `MainRun` says; closes the streamer once if the interrupt ends the loop, and never if an exception ends it |
| Polling.MainRunIsTrace | get_sensor_data.py:85-92 | with a non-negative delay the run is the loop's trace, so the trace lemmas below describe `main` |
| Polling.NegativeDelayStopsAfterFirstRead | get_sensor_data.py:85-92 | with a negative delay the run ends after the first read: with that cycle's exception, or with `ValueError` from the sleep after what the cycle logged and printed; the streamer is not closed |
| Polling.EndOfFirstException | get_sensor_data.py:85-92 | the loop reaches the interrupt iff no cycle raises; otherwise it ends with the first exception raised |
| Polling.TraceAppend | get_sensor_data.py:86-90 | two batches of reads in a row behave like the first batch followed by the second, unless the first raised, in which case the second never runs |
| Polling.CrashEndsTheLoop | get_sensor_data.py:85-92 | once a cycle raises, the run has crashed and later reads change nothing |
| Polling.LoggedUnderSensor | get_sensor_data.py:76 | every logged event is keyed by the sensor id |
| Polling.LoggedIffMarked | get_sensor_data.py:71-79 | a normally returning cycle logs one event if its second line holds `t=`, else none |
| Polling.OneEventPerMarkedRead | get_sensor_data.py:86-90 | without a raising cycle the loop reaches the interrupt and logs one event per read whose second line holds `t=` |
| Polling.UnmarkedReadsLogNothing | get_sensor_data.py:78-79 | reads without `t=` log nothing, print one parse error each with their lines, and do not end the loop |
| Polling.UnmarkedReadsSkipped | get_sensor_data.py:86-90 | reads without `t=` before other reads leave those reads' events and the ending unchanged and add one printed line each |
| Polling.MissingSensorEndsTheLoop | get_sensor_data.py:64-71 | a read that finds no device file (empty output) ends the run with `IndexError`, keeping what earlier cycles logged and printed |

## Left out

- Running `cat` and the UTF-8 decode are not modelled (lines 64-66): each cycle's decoded output is an input of `Poll`.
- The filesystem is not modelled: `os.path.isfile` becomes membership in a set of existing paths that is passed to `Configure`.
- The `modprobe` calls (lines 58-59) are not modelled. They only load kernel modules.
- Argument parsing is left out (lines 24-37): `Args` holds the parsed values.
- The `ISStreamer` client's network behaviour, buffering and threads are left out. `Streamer` only records the calls it receives.
- The length of the sleep is not modelled (line 90), only whether it raises. A negative `--delay` makes `time.sleep` raise after the first cycle, which ends `main` without `close()`. The model names this exception `ValueError`, as Python 3 raises; Python 2 raises `IOError` here, which also escapes.
- The keyboard interrupt is taken to arrive during the sleep after the last given output. An interrupt in the middle of a cycle is not modelled.
- Printed text is modelled as values, not as strings: `Temperature(value, units)` and `ParseError(lines)`. Left out are the ANSI colour prefixes, the "Reading Sensor", "Cycle finished" and verbose messages, and Python's rendering of floats and lists.
- `quit()` at start-up is modelled as the `Failure` branch of `Configure`. The message is kept only as the kind of fault.
- Decimal.ParseInteger: accepts only an optional sign followed by ASCII digits. Python's `float` also accepts surrounding whitespace, a decimal point, exponents, underscores, `inf` and `nan`. Everything outside the modelled grammar counts as `ValueError`, so a second line with trailing whitespace or a carriage return raises in the model.
- Reading.ToFahrenheit: the conversions use exact reals, so IEEE double rounding is not modelled.
- Startup.Configure: the module-level `units` and `apiKey` globals are modelled as values. The preset key is a parameter whose script default is empty.
