/** The parsed inverter snapshot (`Root` and `Measurement` in kostal2influx.go)
    and the functional reading of the power-extraction scan of the poll loop. */
module Measurements {
  import opened Wrappers
  import opened Power

  /** One reading. A `Value` attribute missing from the XML decodes to 0, so the
      value is a plain number. `kind` is the Go field `Type`. */
  datatype Measurement = Measurement(value: real, unit: string, kind: string)

  /** The part of the decoded XML document the core uses: the device name
      (tag and label of every emitted series), the device's own clock
      (only logged) and the measurements, in document order. */
  datatype Snapshot = Snapshot(deviceName: string, dateTime: string, measurements: seq<Measurement>)

  /** A wall-clock instant (Go `time.Time`), as nanoseconds since the Unix epoch. */
  type Instant = int

  /** `time.Time.UnixMilli`: whole milliseconds since the epoch, rounded down
      (also for instants before 1970). */
  function UnixMilli(t: Instant): (ms: int)
    ensures ms * 1_000_000 <= t < (ms + 1) * 1_000_000
  {
    t / 1_000_000
  }

  const OwnConsumedPower := "OwnConsumedPower"
  const GridConsumedPower := "GridConsumedPower"
  const GridInjectedPower := "GridInjectedPower"

  /** The three types the scan picks up. */
  predicate IsPowerKind(kind: string) {
    kind == OwnConsumedPower || kind == GridConsumedPower || kind == GridInjectedPower
  }

  /** The value of the last measurement of type `kind`, if there is one. */
  function LastValue(ms: seq<Measurement>, kind: string): Option<real>
    decreases |ms|
  {
    if ms == [] then None
    else if ms[|ms| - 1].kind == kind then Some(ms[|ms| - 1].value)
    else LastValue(ms[..|ms| - 1], kind)
  }

  /** The balance the scan builds: each field holds the last value of its
      type, or the zero default. */
  function PowerOf(ms: seq<Measurement>): KostalPower
  {
    KostalPower(
      gridConsumed := LastValue(ms, GridConsumedPower).GetOr(0.0),
      gridInjected := LastValue(ms, GridInjectedPower).GetOr(0.0),
      ownConsumed := LastValue(ms, OwnConsumedPower).GetOr(0.0))
  }

  /** The measurements of the three power types, in order. */
  function PowerMeasurements(ms: seq<Measurement>): (r: seq<Measurement>)
    ensures |r| <= |ms|
    ensures forall i :: 0 <= i < |r| ==> IsPowerKind(r[i].kind)
    decreases |ms|
  {
    if ms == [] then []
    else if IsPowerKind(ms[|ms| - 1].kind) then PowerMeasurements(ms[..|ms| - 1]) + [ms[|ms| - 1]]
    else PowerMeasurements(ms[..|ms| - 1])
  }

  /** No measurement has type `kind` exactly when there is no last value. */
  lemma {:induction false} LastValueNone(ms: seq<Measurement>, kind: string)
    ensures LastValue(ms, kind) == None <==> forall i :: 0 <= i < |ms| ==> ms[i].kind != kind
    decreases |ms|
  {
    if ms != [] {
      var init := ms[..|ms| - 1];
      LastValueNone(init, kind);
      assert forall i :: 0 <= i < |init| ==> init[i] == ms[i];
    }
  }

  /** A measurement of type `kind` with none of that type after it supplies the
      last value: the last occurrence wins. */
  lemma {:induction false} LastValueAt(ms: seq<Measurement>, kind: string, i: nat)
    requires i < |ms| && ms[i].kind == kind
    requires forall j :: i < j < |ms| ==> ms[j].kind != kind
    ensures LastValue(ms, kind) == Some(ms[i].value)
    decreases |ms|
  {
    if i < |ms| - 1 {
      var init := ms[..|ms| - 1];
      assert forall j :: i < j < |init| ==> init[j] == ms[j];
      LastValueAt(init, kind, i);
    }
  }

  /** A last value always comes from such a measurement. */
  lemma {:induction false} LastValueSome(ms: seq<Measurement>, kind: string)
    requires LastValue(ms, kind).Some?
    ensures exists i :: (0 <= i < |ms| && ms[i].kind == kind && ms[i].value == LastValue(ms, kind).value
                         && forall j :: i < j < |ms| ==> ms[j].kind != kind)
    decreases |ms|
  {
    var n := |ms| - 1;
    if ms[n].kind != kind {
      var init := ms[..n];
      LastValueSome(init, kind);
      var i :| (0 <= i < |init| && init[i].kind == kind && init[i].value == LastValue(init, kind).value
                && forall j :: i < j < |init| ==> init[j].kind != kind);
      assert ms[i] == init[i];
      assert forall j :: i < j < |ms| ==> ms[j].kind != kind by {
        forall j | i < j < |ms| ensures ms[j].kind != kind {
          if j < n { assert ms[j] == init[j]; }
        }
      }
    }
  }

  /** A measurement whose type differs from `kind` can be dropped, wherever it
      stands, without changing the last value of `kind`. */
  lemma {:induction false} LastValueSkip(a: seq<Measurement>, m: Measurement, b: seq<Measurement>, kind: string)
    requires m.kind != kind
    ensures LastValue(a + [m] + b, kind) == LastValue(a + b, kind)
    decreases |b|
  {
    if b == [] {
      assert (a + [m] + b)[..|a + [m] + b| - 1] == a;
      assert a + b == a;
    } else {
      var n := |b| - 1;
      var b' := b[..n];
      assert (a + [m] + b)[..|a + [m] + b| - 1] == a + [m] + b';
      assert (a + b)[..|a + b| - 1] == a + b';
      LastValueSkip(a, m, b', kind);
    }
  }

  /** Each power field equals the value of the last measurement of its type,
      and is 0 when no measurement has that type. */
  lemma PowerOfLastWins(ms: seq<Measurement>, i: nat)
    requires i < |ms|
    requires forall j :: i < j < |ms| ==> ms[j].kind != ms[i].kind
    ensures ms[i].kind == OwnConsumedPower ==> PowerOf(ms).ownConsumed == ms[i].value
    ensures ms[i].kind == GridConsumedPower ==> PowerOf(ms).gridConsumed == ms[i].value
    ensures ms[i].kind == GridInjectedPower ==> PowerOf(ms).gridInjected == ms[i].value
  {
    LastValueAt(ms, ms[i].kind, i);
  }

  /** With no measurement of a power type, its field keeps the zero default. */
  lemma PowerOfDefaults(ms: seq<Measurement>)
    ensures (forall i :: 0 <= i < |ms| ==> ms[i].kind != OwnConsumedPower) ==> PowerOf(ms).ownConsumed == 0.0
    ensures (forall i :: 0 <= i < |ms| ==> ms[i].kind != GridConsumedPower) ==> PowerOf(ms).gridConsumed == 0.0
    ensures (forall i :: 0 <= i < |ms| ==> ms[i].kind != GridInjectedPower) ==> PowerOf(ms).gridInjected == 0.0
  {
    LastValueNone(ms, OwnConsumedPower);
    LastValueNone(ms, GridConsumedPower);
    LastValueNone(ms, GridInjectedPower);
  }

  /** A measurement of any other type does not affect the balance, wherever it
      stands in the sequence. */
  lemma PowerOfSkip(a: seq<Measurement>, m: Measurement, b: seq<Measurement>)
    requires !IsPowerKind(m.kind)
    ensures PowerOf(a + [m] + b) == PowerOf(a + b)
  {
    LastValueSkip(a, m, b, OwnConsumedPower);
    LastValueSkip(a, m, b, GridConsumedPower);
    LastValueSkip(a, m, b, GridInjectedPower);
  }

  lemma {:induction false} LastValuePowerMeasurements(ms: seq<Measurement>, kind: string)
    requires IsPowerKind(kind)
    ensures LastValue(PowerMeasurements(ms), kind) == LastValue(ms, kind)
    decreases |ms|
  {
    if ms != [] {
      var init := ms[..|ms| - 1];
      var last := ms[|ms| - 1];
      LastValuePowerMeasurements(init, kind);
      if IsPowerKind(last.kind) {
        var r := PowerMeasurements(init) + [last];
        assert r[..|r| - 1] == PowerMeasurements(init);
      }
    }
  }

  /** Only the measurements of the three power types determine the balance. */
  lemma PowerOfPowerMeasurements(ms: seq<Measurement>)
    ensures PowerOf(PowerMeasurements(ms)) == PowerOf(ms)
  {
    LastValuePowerMeasurements(ms, OwnConsumedPower);
    LastValuePowerMeasurements(ms, GridConsumedPower);
    LastValuePowerMeasurements(ms, GridInjectedPower);
  }

  /** The power readings of the decoded XML fixture (981.8 W drawn from the
      grid, nothing injected or used on site) give a valid balance. */
  lemma FixtureBalance(ms: seq<Measurement>)
    requires |ms| == 15
    requires ms[10] == Measurement(-981.8, "W", "GridPower")
    requires ms[11] == Measurement(981.8, "W", "GridConsumedPower")
    requires ms[12] == Measurement(0.0, "W", "GridInjectedPower")
    requires ms[13] == Measurement(0.0, "W", "OwnConsumedPower")
    requires ms[14] == Measurement(43.0, "%", "Derating")
    ensures PowerOf(ms) == KostalPower(981.8, 0.0, 0.0)
    ensures PowerOf(ms).Error() == None && PowerOf(ms).Total() == 981.8
  {
    LastValueAt(ms, GridConsumedPower, 11);
    LastValueAt(ms, GridInjectedPower, 12);
    LastValueAt(ms, OwnConsumedPower, 13);
  }
}
