/** The VictoriaMetrics writer of kostal2influx.go (`writeToVictoriaMetrics`):
    the Prometheus exposition payload, one `name{device="..."} value ts` line
    per measurement, then four derived power lines when the balance is valid.
    Go's `%v` float rendering is the parameter `render`; the HTTP POST is not
    part of this model. */
module Exposition {
  import opened Wrappers
  import opened Power
  import opened Measurements
  import opened Sanitizer
  import opened Decimal

  /** One exposition line before rendering. */
  datatype Sample = Sample(name: string, device: string, value: real, timestamp: int)

  /** The POST the writer would send. */
  datatype Request = Request(url: string, contentType: string, body: string)

  /** How a call of the writer ends before the network: nothing to do when no
      host is configured, the error of `http.NewRequest` when the import URL
      does not parse, or the POST it sends. */
  datatype VmWrite = NotConfigured | InvalidUrl | Post(request: Request)

  const TotalPowerName := "kostal_total_power_watts"
  const OwnConsumedName := "kostal_own_consumed_watts"
  const GridConsumedName := "kostal_grid_consumed_watts"
  const GridInjectedName := "kostal_grid_injected_watts"

  /** The metric name of a measurement: `kostal_<Type>_<Unit>`, sanitised. */
  function MetricName(m: Measurement): (r: string)
    ensures r == "kostal_" + SanitizeMetricName(m.kind) + "_" + SanitizeMetricName(m.unit)
    ensures Clean(r)
  {
    assert Clean("kostal_") && Clean("_");
    SanitizeJoin("kostal_", m.kind, "_", m.unit);
    SanitizeIsClean("kostal_" + m.kind + "_" + m.unit);
    SanitizeMetricName("kostal_" + m.kind + "_" + m.unit)
  }

  /** The line of one measurement. */
  function RawSample(device: string, m: Measurement, ts: int): Sample {
    Sample(MetricName(m), device, m.value, ts)
  }

  /** One line per measurement, in input order. */
  function RawSamples(device: string, ms: seq<Measurement>, ts: int): seq<Sample> {
    seq(|ms|, i requires 0 <= i < |ms| => RawSample(device, ms[i], ts))
  }

  /** The four derived lines, present only for a valid balance. */
  function DerivedSamples(device: string, power: KostalPower, ts: int): seq<Sample> {
    if power.Error() == None then
      [Sample(TotalPowerName, device, power.Total(), ts),
       Sample(OwnConsumedName, device, power.ownConsumed, ts),
       Sample(GridConsumedName, device, power.gridConsumed, ts),
       Sample(GridInjectedName, device, power.gridInjected, ts)]
    else []
  }

  /** All lines of one payload. */
  function PayloadSamples(device: string, ms: seq<Measurement>, power: KostalPower, ts: int): seq<Sample> {
    RawSamples(device, ms, ts) + DerivedSamples(device, power, ts)
  }

  /** The format `%s{device="%s"} %v %d` applied to a name, a device, a
      rendered value and a timestamp, without the terminating newline. */
  function LineText(name: string, device: string, value: string, ts: int): string {
    name + "{device=\"" + device + "\"} " + value + " " + DecimalString(ts)
  }

  /** The text of one sample's line. */
  function LineBody(s: Sample, render: real -> string): string {
    LineText(s.name, s.device, render(s.value), s.timestamp)
  }

  /** The payload text: every line followed by a newline. */
  function Render(samples: seq<Sample>, render: real -> string): string
    decreases |samples|
  {
    if samples == [] then [] else LineBody(samples[0], render) + "\n" + Render(samples[1..], render)
  }

  /** Position of the first `c` in `s`. */
  function IndexOf(s: string, c: char): (k: nat)
    requires c in s
    ensures k < |s| && s[k] == c && c !in s[..k]
  {
    if s[0] == c then 0 else 1 + IndexOf(s[1..], c)
  }

  /** The lines of a text: the pieces before each newline, plus a final piece
      that has no newline after it. */
  function Lines(s: string): seq<string>
    decreases |s|
  {
    if s == [] then []
    else if '\n' in s then
      var k := IndexOf(s, '\n');
      [s[..k]] + Lines(s[k + 1..])
    else [s]
  }

  /** A newline-free line followed by a newline splits off the front of a
      text: it is the first line, and the rest is read as before. */
  lemma LinesCons(body: string, rest: string)
    requires '\n' !in body
    ensures Lines(body + "\n" + rest) == [body] + Lines(rest)
  {
    var s := body + "\n" + rest;
    assert s[..|body|] == body;
    assert s[|body|] == '\n';
    var k := IndexOf(s, '\n');
    assert k == |body|;
    assert s[k + 1..] == rest;
  }

  lemma {:induction false} RenderAppend(samples: seq<Sample>, s: Sample, render: real -> string)
    ensures Render(samples + [s], render) == Render(samples, render) + (LineBody(s, render) + "\n")
    decreases |samples|
  {
    if samples == [] {
      assert [] + [s] == [s];
    } else {
      assert (samples + [s])[1..] == samples[1..] + [s];
      RenderAppend(samples[1..], s, render);
    }
  }

  /** The line texts of a sequence of samples, in order. */
  function Bodies(samples: seq<Sample>, render: real -> string): (r: seq<string>)
    ensures |r| == |samples|
    ensures forall i :: 0 <= i < |samples| ==> r[i] == LineBody(samples[i], render)
    decreases |samples|
  {
    if samples == [] then [] else [LineBody(samples[0], render)] + Bodies(samples[1..], render)
  }

  lemma {:induction false} RenderBodies(samples: seq<Sample>, render: real -> string)
    requires forall i :: 0 <= i < |samples| ==> '\n' !in LineBody(samples[i], render)
    ensures Lines(Render(samples, render)) == Bodies(samples, render)
    decreases |samples|
  {
    if samples != [] {
      var tail := samples[1..];
      assert forall i :: 0 <= i < |tail| ==> tail[i] == samples[i + 1];
      RenderBodies(tail, render);
      LinesCons(LineBody(samples[0], render), Render(tail, render));
    }
  }

  /** Splitting a rendered payload at its newlines gives back exactly one
      line per sample, in order, provided no field contains a newline. */
  lemma RenderLines(samples: seq<Sample>, render: real -> string)
    requires forall i :: 0 <= i < |samples| ==> '\n' !in LineBody(samples[i], render)
    ensures |Lines(Render(samples, render))| == |samples|
    ensures forall i :: 0 <= i < |samples| ==> Lines(Render(samples, render))[i] == LineBody(samples[i], render)
  {
    RenderBodies(samples, render);
  }

  lemma NoNewlineInName(m: Measurement)
    requires '\n' !in m.kind && '\n' !in m.unit
    ensures '\n' !in MetricName(m)
  {
    if '\n' in MetricName(m) {
      SanitizeChars("kostal_" + m.kind + "_" + m.unit, '\n');
    }
  }

  lemma DerivedNamesClean()
    ensures Clean(TotalPowerName) && Clean(OwnConsumedName) && Clean(GridConsumedName) && Clean(GridInjectedName)
    ensures '\n' !in TotalPowerName && '\n' !in OwnConsumedName && '\n' !in GridConsumedName && '\n' !in GridInjectedName
  {
  }

  /** The shape of the payload: one line per measurement, in input order, with
      the sanitised `kostal_<Type>_<Unit>` name and the measured value; then,
      exactly when the balance is valid, the total, own-consumed,
      grid-consumed and grid-injected lines; every line with the same device
      label and timestamp. */
  lemma PayloadShape(device: string, ms: seq<Measurement>, power: KostalPower, ts: int)
    ensures |PayloadSamples(device, ms, power, ts)| == |ms| + (if power.Error() == None then 4 else 0)
    ensures forall i :: 0 <= i < |PayloadSamples(device, ms, power, ts)| ==>
      var s := PayloadSamples(device, ms, power, ts)[i];
      s.device == device && s.timestamp == ts && Clean(s.name)
    ensures forall i :: 0 <= i < |ms| ==>
      var s := PayloadSamples(device, ms, power, ts)[i];
      s.name == "kostal_" + SanitizeMetricName(ms[i].kind) + "_" + SanitizeMetricName(ms[i].unit) && s.value == ms[i].value
    ensures power.Error() == None ==>
      PayloadSamples(device, ms, power, ts)[|ms|..] ==
        [Sample(TotalPowerName, device, power.ownConsumed + power.gridConsumed + power.gridInjected, ts),
         Sample(OwnConsumedName, device, power.ownConsumed, ts),
         Sample(GridConsumedName, device, power.gridConsumed, ts),
         Sample(GridInjectedName, device, power.gridInjected, ts)]
  {
    var raw := RawSamples(device, ms, ts);
    var derived := DerivedSamples(device, power, ts);
    var p := PayloadSamples(device, ms, power, ts);
    assert p == raw + derived;
    assert p[|ms|..] == derived;
    DerivedNamesClean();
    forall i | 0 <= i < |p| ensures p[i].device == device && p[i].timestamp == ts && Clean(p[i].name) {
      if i < |ms| {
        assert p[i] == raw[i];
      } else {
        assert p[i] == derived[i - |ms|];
      }
    }
    forall i | 0 <= i < |ms|
      ensures p[i].name == "kostal_" + SanitizeMetricName(ms[i].kind) + "_" + SanitizeMetricName(ms[i].unit)
      ensures p[i].value == ms[i].value
    {
      assert p[i] == raw[i];
    }
  }

  /** The payload text has exactly `|ms| + 4` lines for a valid balance and
      `|ms|` otherwise; line `i` is the rendering of sample `i`, ending in the
      shared millisecond timestamp. Newlines inside the device name, a type,
      a unit or a rendered value would break this, so they are excluded. */
  lemma PayloadLines(device: string, ms: seq<Measurement>, power: KostalPower, ts: int, render: real -> string)
    requires '\n' !in device
    requires forall i :: 0 <= i < |ms| ==> '\n' !in ms[i].kind && '\n' !in ms[i].unit
    requires forall v :: '\n' !in render(v)
    ensures |Lines(Render(PayloadSamples(device, ms, power, ts), render))| == |ms| + (if power.Error() == None then 4 else 0)
    ensures forall i :: 0 <= i < |ms| + (if power.Error() == None then 4 else 0) ==>
      var s := PayloadSamples(device, ms, power, ts)[i];
      Lines(Render(PayloadSamples(device, ms, power, ts), render))[i]
        == s.name + "{device=\"" + device + "\"} " + render(s.value) + " " + DecimalString(ts)
  {
    var p := PayloadSamples(device, ms, power, ts);
    PayloadShape(device, ms, power, ts);
    forall i | 0 <= i < |p| ensures '\n' !in LineBody(p[i], render) {
      if i < |ms| {
        assert p[i] == RawSample(device, ms[i], ts);
        NoNewlineInName(ms[i]);
      } else {
        var d := DerivedSamples(device, power, ts);
        assert p[i] == d[i - |ms|];
        DerivedNamesClean();
      }
      NoNewlineInBody(p[i], render);
    }
    RenderLines(p, render);
  }

  lemma NoNewlineInBody(s: Sample, render: real -> string)
    requires '\n' !in s.name && '\n' !in s.device && '\n' !in render(s.value)
    ensures '\n' !in LineBody(s, render)
  {
  }

  /** Appending the line of the next measurement extends the rendered
      prefix. */
  lemma RawStep(device: string, ms: seq<Measurement>, i: nat, ts: int, render: real -> string)
    requires i < |ms|
    ensures Render(RawSamples(device, ms[..i + 1], ts), render)
      == Render(RawSamples(device, ms[..i], ts), render) + (LineBody(RawSample(device, ms[i], ts), render) + "\n")
  {
    assert RawSamples(device, ms[..i + 1], ts) == RawSamples(device, ms[..i], ts) + [RawSample(device, ms[i], ts)];
    RenderAppend(RawSamples(device, ms[..i], ts), RawSample(device, ms[i], ts), render);
  }

  /** For a valid balance the payload text is the raw lines followed by the
      total, own-consumed, grid-consumed and grid-injected lines. */
  lemma DerivedRender(raw: seq<Sample>, device: string, power: KostalPower, ts: int, render: real -> string)
    requires power.Error() == None
    ensures Render(raw + DerivedSamples(device, power, ts), render)
      == Render(raw, render)
      + (LineText(TotalPowerName, device, render(power.Total()), ts) + "\n")
      + (LineText(OwnConsumedName, device, render(power.ownConsumed), ts) + "\n")
      + (LineText(GridConsumedName, device, render(power.gridConsumed), ts) + "\n")
      + (LineText(GridInjectedName, device, render(power.gridInjected), ts) + "\n")
  {
    RenderAppend4(raw,
      Sample(TotalPowerName, device, power.Total(), ts),
      Sample(OwnConsumedName, device, power.ownConsumed, ts),
      Sample(GridConsumedName, device, power.gridConsumed, ts),
      Sample(GridInjectedName, device, power.gridInjected, ts), render);
  }

  /** Appending four samples appends their four lines. */
  lemma RenderAppend4(raw: seq<Sample>, a: Sample, b: Sample, c: Sample, e: Sample, render: real -> string)
    ensures Render(raw + [a, b, c, e], render)
      == Render(raw, render) + (LineBody(a, render) + "\n") + (LineBody(b, render) + "\n")
      + (LineBody(c, render) + "\n") + (LineBody(e, render) + "\n")
  {
    ConcatFour(raw, a, b, c, e);
    RenderAppend(raw, a, render);
    RenderAppend(raw + [a], b, render);
    RenderAppend(raw + [a] + [b], c, render);
    RenderAppend(raw + [a] + [b] + [c], e, render);
  }

  lemma ConcatFour(raw: seq<Sample>, a: Sample, b: Sample, c: Sample, e: Sample)
    ensures raw + [a, b, c, e] == raw + [a] + [b] + [c] + [e]
  {
  }

  /** `buildPayload`: the raw lines in a loop, then the derived lines when the
      balance is valid. */
  method BuildPayload(device: string, ms: seq<Measurement>, power: KostalPower, ts: int, render: real -> string)
    returns (payload: string)
    ensures payload == Render(PayloadSamples(device, ms, power, ts), render)
  {
    var buf := "";
    for i := 0 to |ms|
      invariant buf == Render(RawSamples(device, ms[..i], ts), render)
    {
      var m := ms[i];
      var name := SanitizeMetricName("kostal_" + m.kind + "_" + m.unit);
      RawStep(device, ms, i, ts, render);
      buf := buf + (LineText(name, device, render(m.value), ts) + "\n");
    }
    assert ms[..|ms|] == ms;
    if power.Error() == None {
      DerivedRender(RawSamples(device, ms, ts), device, power, ts, render);
      buf := buf + (LineText(TotalPowerName, device, render(power.Total()), ts) + "\n");
      buf := buf + (LineText(OwnConsumedName, device, render(power.ownConsumed), ts) + "\n");
      buf := buf + (LineText(GridConsumedName, device, render(power.gridConsumed), ts) + "\n");
      buf := buf + (LineText(GridInjectedName, device, render(power.gridInjected), ts) + "\n");
    } else {
      assert PayloadSamples(device, ms, power, ts) == RawSamples(device, ms, ts);
    }
    payload := buf;
  }

  /** A measurement whose type and unit need no sanitising keeps its composed name. */
  lemma MetricNameOfClean(m: Measurement)
    requires Clean(m.kind) && Clean(m.unit)
    ensures MetricName(m) == "kostal_" + m.kind + "_" + m.unit
  {
    SanitizeIdentity(m.kind);
    SanitizeIdentity(m.unit);
  }

  /** The five measurements of the exposition-format test. */
  predicate IsTestInput(m0: Measurement, m1: Measurement, m2: Measurement, m3: Measurement, m4: Measurement) {
    && m0 == Measurement(223.3, "V", "AC_Voltage")
    && m1 == Measurement(50.0, "Hz", "AC_Frequency")
    && m2 == Measurement(1000.0, "W", "GridConsumedPower")
    && m3 == Measurement(500.0, "W", "OwnConsumedPower")
    && m4 == Measurement(0.0, "W", "GridInjectedPower")
  }

  lemma TestNamesClean()
    ensures Clean("AC_Voltage") && Clean("V") && Clean("AC_Frequency") && Clean("Hz")
    ensures Clean("GridConsumedPower") && Clean("W") && Clean("OwnConsumedPower") && Clean("GridInjectedPower")
  {
  }

  /** When no type or unit needs sanitising, each raw line is named
      `kostal_<Type>_<Unit>` verbatim. */
  lemma RawSamplesOfClean(device: string, ms: seq<Measurement>, ts: int)
    requires forall i :: 0 <= i < |ms| ==> Clean(ms[i].kind) && Clean(ms[i].unit)
    ensures |RawSamples(device, ms, ts)| == |ms|
    ensures forall i :: 0 <= i < |ms| ==>
      RawSamples(device, ms, ts)[i] == Sample("kostal_" + ms[i].kind + "_" + ms[i].unit, device, ms[i].value, ts)
  {
    forall i | 0 <= i < |ms| ensures MetricName(ms[i]) == "kostal_" + ms[i].kind + "_" + ms[i].unit {
      MetricNameOfClean(ms[i]);
    }
  }

  /** For the test input no sanitising is needed: each raw line is named
      `kostal_<Type>_<Unit>` verbatim. */
  lemma TestRawSamples(device: string, m0: Measurement, m1: Measurement, m2: Measurement, m3: Measurement, m4: Measurement, ts: int)
    requires IsTestInput(m0, m1, m2, m3, m4)
    ensures var ms := [m0, m1, m2, m3, m4];
      var r := RawSamples(device, ms, ts);
      && |r| == 5
      && forall i :: 0 <= i < 5 ==> r[i] == Sample("kostal_" + ms[i].kind + "_" + ms[i].unit, device, ms[i].value, ts)
  {
    TestNamesClean();
    var ms := [m0, m1, m2, m3, m4];
    assert forall i :: 0 <= i < |ms| ==> Clean(ms[i].kind) && Clean(ms[i].unit);
    RawSamplesOfClean(device, ms, ts);
  }

  /** The lines of the exposition-format test: the five raw lines
      `kostal_AC_Voltage_V`, ..., `kostal_GridInjectedPower_W` with their
      values, then the four derived lines with total 1500. */
  lemma OutputFormatExample(device: string, m0: Measurement, m1: Measurement, m2: Measurement, m3: Measurement, m4: Measurement,
                            power: KostalPower, ts: int)
    requires IsTestInput(m0, m1, m2, m3, m4)
    requires power == KostalPower(1000.0, 0.0, 500.0)
    ensures var ms := [m0, m1, m2, m3, m4];
      var p := PayloadSamples(device, ms, power, ts);
      && |p| == 9
      && (forall i :: 0 <= i < 5 ==> p[i] == Sample("kostal_" + ms[i].kind + "_" + ms[i].unit, device, ms[i].value, ts))
      && p[5] == Sample("kostal_total_power_watts", device, 1500.0, ts)
      && p[6] == Sample("kostal_own_consumed_watts", device, 500.0, ts)
      && p[7] == Sample("kostal_grid_consumed_watts", device, 1000.0, ts)
      && p[8] == Sample("kostal_grid_injected_watts", device, 0.0, ts)
  {
    var ms := [m0, m1, m2, m3, m4];
    TestRawSamples(device, m0, m1, m2, m3, m4, ts);
    assert power.Error() == None;
    var r := RawSamples(device, ms, ts);
    assert PayloadSamples(device, ms, power, ts) == r + DerivedSamples(device, power, ts);
  }

  /** The part of `writeToVictoriaMetrics` before the POST: nothing at all
      when no VictoriaMetrics host is configured; the `http.NewRequest` error
      when the import URL does not parse (Go's URL parser is the parameter
      `urlParses`); otherwise a text/plain POST of the payload, stamped with
      the instant's Unix milliseconds, to the host's Prometheus import
      endpoint on port 8428. */
  method VictoriaMetricsRequest(vmHost: string, device: string, ms: seq<Measurement>, power: KostalPower,
                                timestamp: Instant, render: real -> string, urlParses: string -> bool)
    returns (w: VmWrite)
    ensures vmHost == "" <==> w == NotConfigured
    ensures w == InvalidUrl <==> vmHost != "" && !urlParses("http://" + vmHost + ":8428/api/v1/import/prometheus")
    ensures w.Post? <==> vmHost != "" && urlParses("http://" + vmHost + ":8428/api/v1/import/prometheus")
    ensures w.Post? ==> w.request.url == "http://" + vmHost + ":8428/api/v1/import/prometheus"
    ensures w.Post? ==> w.request.contentType == "text/plain"
    ensures w.Post? ==> w.request.body == Render(PayloadSamples(device, ms, power, UnixMilli(timestamp)), render)
  {
    if vmHost == "" {
      return NotConfigured;
    }
    var ts := UnixMilli(timestamp);
    var body := BuildPayload(device, ms, power, ts, render);
    var url := "http://" + vmHost + ":8428/api/v1/import/prometheus";
    if !urlParses(url) {
      return InvalidUrl;
    }
    w := Post(Request(url, "text/plain", body));
  }
}
