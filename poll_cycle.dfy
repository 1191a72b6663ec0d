/** One cycle of the poll loop in `main` of kostal2influx.go, after the
    snapshot was fetched and decoded: the scan that builds the raw point and
    the power balance, the derived ("msf") point, and the hand-over to the
    VictoriaMetrics writer. Sleeping, fetching, logging and the client calls
    themselves are not part of this model. */
module PollCycle {
  import opened Wrappers
  import opened Power
  import opened Measurements
  import opened Influx
  import opened Exposition

  const RawMetricName := "kostal_inverter_raw"
  const MsfMetricName := "kostal_inverter_msf"
  const DeviceNameTag := "DeviceName"

  /** The field name of a measurement on the raw point: `<Type>_<Unit>`. */
  function RawFieldName(m: Measurement): string {
    m.kind + "_" + m.unit
  }

  /** The loop over the measurements: each one becomes a field of the raw
      point, and a measurement of one of the three power types overwrites the
      matching field of the balance, which starts at zero. */
  method ScanMeasurements(deviceName: string, now: Instant, ms: seq<Measurement>)
    returns (raw: Point, power: KostalPower)
    ensures power == PowerOf(ms)
    ensures raw.measurement == RawMetricName && raw.tags == [Tag(DeviceNameTag, deviceName)] && raw.time == Some(now)
    ensures |raw.fields| == |ms|
    ensures forall i :: 0 <= i < |ms| ==> raw.fields[i] == Field(RawFieldName(ms[i]), ms[i].value)
  {
    power := Zero;
    raw := NewPointWithMeasurement(RawMetricName).AddTag(DeviceNameTag, deviceName).SetTime(now);
    for i := 0 to |ms|
      invariant power == PowerOf(ms[..i])
      invariant raw.measurement == RawMetricName && raw.tags == [Tag(DeviceNameTag, deviceName)] && raw.time == Some(now)
      invariant |raw.fields| == i
      invariant forall k :: 0 <= k < i ==> raw.fields[k] == Field(RawFieldName(ms[k]), ms[k].value)
    {
      var m := ms[i];
      raw := raw.AddField(m.kind + "_" + m.unit, m.value);
      if m.kind == OwnConsumedPower {
        power := power.(ownConsumed := m.value);
      } else if m.kind == GridConsumedPower {
        power := power.(gridConsumed := m.value);
      } else if m.kind == GridInjectedPower {
        power := power.(gridInjected := m.value);
      }
      assert ms[..i + 1][..i] == ms[..i];
    }
    assert ms[..|ms|] == ms;
  }

  /** The derived point: built only for a valid balance, with the total, own,
      grid-consumed and grid-injected watts, tagged and timed like the raw
      point. */
  function MsfPoint(deviceName: string, now: Instant, power: KostalPower): (p: Option<Point>)
    ensures p.Some? <==> power.Error() == None
    ensures p.Some? ==> p.value.measurement == MsfMetricName && p.value.tags == [Tag(DeviceNameTag, deviceName)]
                        && p.value.time == Some(now) && |p.value.fields| == 4
    ensures p.Some? ==> forall i :: 0 <= i < 4 ==> p.value.fields[i].value >= 0.0
    ensures p.Some? ==> p.value.fields[0].value == p.value.fields[1].value + p.value.fields[2].value + p.value.fields[3].value
    ensures p.Some? ==> p.value.fields[0] == Field("TotalPower_W", power.ownConsumed + power.gridConsumed + power.gridInjected)
    ensures p.Some? ==> p.value.fields[1] == Field("OwnConsumed_W", power.ownConsumed)
                        && p.value.fields[2] == Field("GridConsumed_W", power.gridConsumed)
                        && p.value.fields[3] == Field("GridInjected_W", power.gridInjected)
  {
    if power.Error() == None then
      Some(NewPointWithMeasurement(MsfMetricName)
             .AddTag(DeviceNameTag, deviceName)
             .SetTime(now)
             .AddField("TotalPower_W", power.Total())
             .AddField("OwnConsumed_W", power.ownConsumed)
             .AddField("GridConsumed_W", power.gridConsumed)
             .AddField("GridInjected_W", power.gridInjected))
    else None
  }

  /** The copy of the decoded measurements into the writer's slice. */
  method CopyMeasurements(ms: seq<Measurement>) returns (measurements: seq<Measurement>)
    ensures measurements == ms
  {
    measurements := [];
    for i := 0 to |ms|
      invariant measurements == ms[..i]
    {
      measurements := measurements + [Measurement(ms[i].value, ms[i].unit, ms[i].kind)];
    }
    assert ms[..|ms|] == ms;
  }

  /** What one cycle hands to the two sinks: the points written to InfluxDB,
      in order, and how the VictoriaMetrics writer ends: not configured, a URL
      that does not parse, or the request it sends.
      The raw point is always written; the derived point follows exactly when
      the balance of the measurements is valid; both sinks see the same
      measurements, balance and instant. */
  method EmitCycle(snapshot: Snapshot, now: Instant, vmHost: string, render: real -> string, urlParses: string -> bool)
    returns (points: seq<Point>, vmWrite: VmWrite)
    ensures var power := PowerOf(snapshot.measurements);
      && |points| == (if power.Error() == None then 2 else 1)
      && points[0].measurement == RawMetricName
      && |points[0].fields| == |snapshot.measurements|
      && (forall i :: 0 <= i < |snapshot.measurements| ==>
            points[0].fields[i] == Field(RawFieldName(snapshot.measurements[i]), snapshot.measurements[i].value))
      && (power.Error() == None ==> Some(points[1]) == MsfPoint(snapshot.deviceName, now, power))
      && (forall i :: 0 <= i < |points| ==> points[i].tags == [Tag(DeviceNameTag, snapshot.deviceName)] && points[i].time == Some(now))
    ensures vmWrite == NotConfigured <==> vmHost == ""
    ensures vmWrite.Post? <==> vmHost != "" && urlParses("http://" + vmHost + ":8428/api/v1/import/prometheus")
    ensures vmWrite.Post? ==> vmWrite.request.url == "http://" + vmHost + ":8428/api/v1/import/prometheus"
    ensures vmWrite.Post? ==> (vmWrite.request.body ==
      Render(PayloadSamples(snapshot.deviceName, snapshot.measurements, PowerOf(snapshot.measurements), UnixMilli(now)), render))
  {
    var raw, power := ScanMeasurements(snapshot.deviceName, now, snapshot.measurements);
    points := [raw];
    var msf := MsfPoint(snapshot.deviceName, now, power);
    if msf.Some? {
      points := points + [msf.value];
    }
    vmWrite := NotConfigured;
    if vmHost != "" {
      var measurements := CopyMeasurements(snapshot.measurements);
      vmWrite := VictoriaMetricsRequest(vmHost, snapshot.deviceName, measurements, power, now, render, urlParses);
    }
  }
}
