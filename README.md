# kostal2influx: verified model of the decide-and-encode core

kostal2influx polls a Kostal PIKO solar inverter for its `measurements.xml`
snapshot and writes to two time-series sinks. It writes raw and derived
points to InfluxDB v2. Optionally it also writes a Prometheus exposition
payload to VictoriaMetrics. This project models, in Dafny, the logic that
runs after the XML has been decoded and before bytes go to a sink:

- the **power balance** `kostalPower`, with its `Total()` and its `Error()`
  validity check (`power.dfy`);
- the **scan of the measurements** in the poll loop, which fills the balance
  and the raw InfluxDB point (`measurements.dfy`, `poll_cycle.dfy`);
- the **metric-name sanitiser** `sanitizeMetricName` (`sanitizer.dfy`);
- the **exposition payload builder** in `writeToVictoriaMetrics`, with Go's
  `%d` timestamp rendering (`exposition.dfy`, `decimal.dfy`);
- the **derived ("msf") point** and what one cycle hands to the two sinks
  (`poll_cycle.dfy`, `influx.dfy`).

Modelling choices:

- Watts are `real`. The code only compares them with 0 and adds them.
- A measurement's value is a plain number, as the `float64` field at
  kostal2influx.go:45 is.
- An instant is an `int` count of nanoseconds since the epoch, and
  `UnixMilli` rounds it down.
- Go's `%v` float formatting is the parameter `render: real -> string`. Every
  payload property except `Exposition.RenderLines` and
  `Exposition.PayloadLines` holds for any renderer; those two need rendered
  values without a newline.
- Go's URL parser, which decides whether `http.NewRequest` accepts the
  import URL, is the parameter `urlParses: string -> bool`.
- The InfluxDB point builders are modelled as a record that keeps tags and
  fields in the order they were added.

Two points on how the model reads the code:

- A missing `Value` attribute decodes to 0 (kostal2influx_test.go:18), so
  the model has no absent value. Such a measurement is emitted as a field
  and as a line like any other.
- The test calls `NewVMClient(...).buildPayload(device, measurements, power, ts)`,
  which the source does not define. `Exposition.BuildPayload` has that
  signature and follows lines 103-118 of `writeToVictoriaMetrics`.

## Model

| member | source | states |
|---|---|---|
| `Power.KostalPower.Total` | kostal2influx.go:79-84 | for a balance that `Error()` accepts, the total is the sum of all three readings and is non-negative |
| `Power.KostalPower.Error` | kostal2influx.go:86-95 | no error iff all readings are ≥ 0 and exactly one grid direction is positive with the other 0; `Negative` iff some reading is negative; `Inconsistent` iff none is negative but the grid readings are both 0 or both positive |
| `Power.ErrorIff` | kostal2influx.go:86-95 | an error is reported iff a reading is negative, or both grid readings are 0, or both are positive |
| `Power.ValidBalance` | kostal2influx.go:79-95 | under a nil error: all readings ≥ 0, exactly one grid reading positive and the other 0, total = own + consumed + injected, total ≥ own and > 0 |
| `Power.ZeroIsInconsistent` | kostal2influx.go:90-92 | the zero balance the scan starts from is rejected as inconsistent |
| `Power.PowerCalculationCases` | kostal2influx_test.go:81-136 | 1000/0/500 is valid with total 1500; 0/800/300 is valid with total 1100; consumed -100 is `Negative`; both grid values 100 is `Inconsistent` |
| `Sanitizer.SanitizeChar` | kostal2influx.go:142-144 | one character's image: `_` for space and `/`, `percent` for `%`, the character itself otherwise; never a removed character |
| `Sanitizer.SanitizeIsPerCharacter` | kostal2influx.go:141-146 | the three replace-all passes equal the one-pass, character-by-character reference, so every other character is kept in order |
| `Sanitizer.SanitizeIsClean` | kostal2influx.go:141-146 | the result contains no space, `/` or `%` |
| `Sanitizer.SanitizeLength` | kostal2influx.go:141-146 | output length = input length + 6 × number of `%` |
| `Sanitizer.SanitizeChars` | kostal2influx.go:141-146 | every output character comes from the input or from `_`/`percent` |
| `Sanitizer.SanitizeIdentity` | kostal2influx.go:141-146 | a name is unchanged iff it has no space, `/` or `%` |
| `Sanitizer.SanitizeIdempotent` | kostal2influx.go:141-146 | sanitising twice equals sanitising once |
| `Sanitizer.SanitizeAppend` | kostal2influx.go:141-146 | sanitising distributes over concatenation |
| `Sanitizer.SanitizeJoin` | kostal2influx.go:108 | a name made of clean fixed parts and free parts is sanitised only in the free parts |
| `Sanitizer.SanitizeSpaceExample` | kostal2influx_test.go:28 | `AC Voltage` → `AC_Voltage` |
| `Sanitizer.SanitizeSlashExample` | kostal2influx_test.go:29 | `Power/W` → `Power_W` |
| `Sanitizer.SanitizePercentExample` | kostal2influx_test.go:30 | `Temp %` → `Temp_percent` |
| `Sanitizer.SanitizeCleanExamples` | kostal2influx_test.go:31-32 | `simple_name` and `already_sanitized` are unchanged |
| `Decimal.DecimalString` | kostal2influx.go:109 | `%d` of the timestamp is non-empty and has no newline or space |
| `Decimal.DecimalRoundTrip` | kostal2influx.go:109 | the `%d` text parses back to the same integer |
| `Measurements.UnixMilli` | kostal2influx.go:104 | the milliseconds are the instant rounded down to whole milliseconds |
| `Measurements.LastValueNone` | kostal2influx.go:229-241 | there is no value for a type iff no measurement has that type |
| `Measurements.LastValueAt` | kostal2influx.go:229-241 | a measurement of the type with none of that type after it supplies the value (last occurrence wins) |
| `Measurements.LastValueSome` | kostal2influx.go:229-241 | every value found comes from such a last measurement |
| `Measurements.PowerOfLastWins` | kostal2influx.go:233-240 | each power field equals the value of the last measurement of its type |
| `Measurements.PowerOfDefaults` | kostal2influx.go:225 | a power field with no measurement of its type stays 0 |
| `Measurements.PowerOfSkip` | kostal2influx.go:233-240 | a measurement of any other type, anywhere, does not change the balance |
| `Measurements.PowerOfPowerMeasurements` | kostal2influx.go:233-240 | the balance depends only on the measurements of the three power types |
| `Measurements.FixtureBalance` | kostal2influx_test.go:11 | the fixture's readings (981.8 W consumed, 0 injected, 0 own) give a valid balance with total 981.8 |
| `PollCycle.ScanMeasurements` | kostal2influx.go:225-241 | the balance equals `PowerOf` of the measurements; the raw point is `kostal_inverter_raw`, tagged with the device name, timed at the instant, and has one `<Type>_<Unit>` field per measurement, in order, with its value |
| `PollCycle.MsfPoint` | kostal2influx.go:250-259 | the derived point exists iff the balance is valid; it is `kostal_inverter_msf` with the device tag and the instant; its four fields are non-negative; `TotalPower_W` is the sum of the other three, which are `OwnConsumed_W`, `GridConsumed_W` and `GridInjected_W` |
| `PollCycle.CopyMeasurements` | kostal2influx.go:264-271 | the copy handed to the VictoriaMetrics writer equals the decoded measurements |
| `PollCycle.EmitCycle` | kostal2influx.go:225-277 | the raw point is always written, and the msf point follows it iff the balance is valid; both share the tag and the instant; the VictoriaMetrics writer is not configured iff the host is empty, and sends a request iff the host is set and the import URL parses; that request's URL and body are fixed by the same measurements and balance |
| `Exposition.MetricName` | kostal2influx.go:108 | a measurement's metric name is `kostal_` + sanitised type + `_` + sanitised unit, with no space, `/` or `%` |
| `Exposition.PayloadShape` | kostal2influx.go:107-118 | one line per measurement, in input order, with its name and value; then, iff the balance is valid, exactly the total (= sum), own, consumed and injected lines in that order; line count = measurements + (4 if valid, else 0); all lines share the device label and timestamp |
| `Exposition.RenderLines` | kostal2influx.go:109 | splitting a rendered payload at its newlines gives back one line per sample, in order |
| `Exposition.PayloadLines` | kostal2influx.go:103-118 | for newline-free names, units, device and rendered values, the payload text has measurements + (4 if valid, else 0) newline-terminated lines, each `name{device="<device>"} <value> <ts>` |
| `Exposition.RawSamplesOfClean` | kostal2influx.go:107-110 | when no type or unit contains a space, `/` or `%`, every raw line is named `kostal_<Type>_<Unit>` verbatim, in input order |
| `Exposition.DerivedRender` | kostal2influx.go:113-118 | for a valid balance the payload text is the raw lines followed by the total, own-consumed, grid-consumed and grid-injected lines, in that order |
| `Sanitizer.ReplaceAll` | kostal2influx.go:142-144 | `strings.ReplaceAll` with a one-character pattern; its properties are carried by `Sanitizer.ReplaceAllAppend` and `Sanitizer.SanitizeIsPerCharacter` |
| `Sanitizer.SanitizeMetricName` | kostal2influx.go:141-146 | the three replace-all passes; their meaning is stated by `SanitizeIsPerCharacter`, `SanitizeIsClean`, `SanitizeLength`, `SanitizeIdentity` and `SanitizeIdempotent` |
| `Measurements.PowerOf` | kostal2influx.go:225-241 | the balance the scan leaves; its properties are `PowerOfLastWins`, `PowerOfDefaults`, `PowerOfSkip` and `PowerOfPowerMeasurements`, and `PollCycle.ScanMeasurements` is proved equal to it |
| `PollCycle.RawFieldName` | kostal2influx.go:230 | the raw point's field name `<Type>_<Unit>`, unsanitised; used in the contracts of `ScanMeasurements` and `EmitCycle` |
| `Influx.NewPointWithMeasurement` | kostal2influx.go:226 | a point with the given measurement and no tags, fields or time; the points built from it are stated by `ScanMeasurements` and `MsfPoint` |
| `Influx.Point.AddTag` | kostal2influx.go:227 | appends one tag; its use is stated by `ScanMeasurements` and `MsfPoint` |
| `Influx.Point.SetTime` | kostal2influx.go:228 | sets the point's time; its use is stated by `ScanMeasurements` and `MsfPoint` |
| `Influx.Point.AddField` | kostal2influx.go:231 | appends one field; its use is stated by `ScanMeasurements` (one field per measurement, in order) and `MsfPoint` (the four derived fields) |
| `Exposition.LineText` | kostal2influx.go:109-117 | the format `%s{device="%s"} %v %d` of lines 109 and 114-117; `NoNewlineInBody` and `PayloadLines` state that the lines read back one per sample |
| `Exposition.RawSample` | kostal2influx.go:108-109 | the line of one measurement: its sanitised metric name, the device, its value and the shared timestamp; stated by `PayloadShape` |
| `Exposition.RawSamples` | kostal2influx.go:107-110 | one line per measurement, in input order; stated by `PayloadShape` and `RawSamplesOfClean` |
| `Exposition.Render` | kostal2influx.go:103-117 | the buffer's text: every line followed by `\n`, concatenated in order; `RenderLines` and `PayloadLines` state that splitting it at its newlines gives back one line per sample, and `BuildPayload`, `VictoriaMetricsRequest` and `EmitCycle` set the payload equal to it |
| `Exposition.DerivedSamples` | kostal2influx.go:113-118 | the four derived lines, present only for a valid balance; stated by `PayloadShape` |
| `Exposition.PayloadSamples` | kostal2influx.go:107-118 | all lines of one payload; its shape is stated by `PayloadShape` and its text by `PayloadLines` |
| `Exposition.BuildPayload` | kostal2influx.go:103-118 | the buffer built by the loop and the conditional block is the rendering of `PayloadSamples` |
| `Exposition.VictoriaMetricsRequest` | kostal2influx.go:98-124 | not configured iff the host is empty; the `http.NewRequest` error iff the host is set and the import URL does not parse; otherwise a `text/plain` POST to `http://<host>:8428/api/v1/import/prometheus` whose body is the payload stamped with the instant's Unix milliseconds |
| `Exposition.OutputFormatExample` | kostal2influx_test.go:43-79 | the test's five measurements and balance give five raw lines `kostal_<Type>_<Unit>`, then total 1500, own 500, consumed 1000 and injected 0 |

## Left out

- HTTP fetch `getMeasurements` (kostal2influx.go:53-65): network I/O.
- XML decoding `parseMeasurementsXML` (kostal2influx.go:67-71): it is a thin wrapper over `encoding/xml`. The model starts from a decoded `Snapshot`.
- Device attributes other than `Name` and `DateTime` (kostal2influx.go:27-42): no logic reads them.
- The POST, its transport errors and the `>= 300` status check in `writeToVictoriaMetrics` (kostal2influx.go:126-137): network I/O. The model stops at the request it would send.
- Go's URL parsing for `http.NewRequest` (kostal2influx.go:120-123): it is the uninterpreted parameter `urlParses`. The model captures that an unparseable URL gives an error and sends nothing, but not which hosts Go rejects.
- The InfluxDB client: `NewClient`, `WriteAPI`, `WritePoint`, `Flush` and the error channel (kostal2influx.go:202-212, 242, 258, 279). This is a foreign library.
- `Influx.Point.AddField` and `Influx.Point.AddTag`: the library's handling of repeated keys and its ordering of tags and fields are not modelled. A point keeps what was added, in order.
- PollCycle.ScanMeasurements and PollCycle.EmitCycle: they promise one raw field per measurement. With two measurements of the same `Type_Unit`, the library's own handling of the repeated key could keep fewer fields.
- The error-logging goroutine (kostal2influx.go:208-212): concurrency.
- Flags, environment overrides, the "token or VM host required" startup check, the logger, and the sleep loop (kostal2influx.go:155-223): process glue and configuration.
- Go `%v` float formatting: it is the `render` parameter, left uninterpreted.
- Power.KostalPower.Total: float64 rounding of the sum is not modelled, because readings are reals.
- Power.KostalPower.Error: NaN readings are not modelled. In Go, every comparison with NaN is false, so a NaN grid reading passes `Error()` whatever the other grid reading is, as long as that one is not negative, and a NaN own reading passes whenever the grid readings are valid.
- Measurements.UnixMilli: int64 overflow of the millisecond count is not modelled, because integers are unbounded.
- Exposition.PayloadLines and Exposition.RenderLines: device names, types, units or rendered values that contain a newline are excluded (RenderLines requires that no line body contains one). The source does not escape these fields, so such a value would split a line.
