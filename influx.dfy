/** The InfluxDB v2 point builder the poll loop uses
    (`NewPointWithMeasurement`, `AddTag`, `SetTime`, `AddField`), as an abstract
    record: the client library's own encoding is not part of this model, so a
    point keeps its tags and fields in the order they were added. */
module Influx {
  import opened Wrappers
  import opened Measurements

  datatype Tag = Tag(key: string, value: string)
  datatype Field = Field(key: string, value: real)

  datatype Point = Point(measurement: string, tags: seq<Tag>, fields: seq<Field>, time: Option<Instant>)
  {
    function AddTag(key: string, value: string): Point {
      this.(tags := tags + [Tag(key, value)])
    }

    function SetTime(t: Instant): Point {
      this.(time := Some(t))
    }

    function AddField(key: string, value: real): Point {
      this.(fields := fields + [Field(key, value)])
    }
  }

  function NewPointWithMeasurement(measurement: string): Point {
    Point(measurement, [], [], None)
  }
}
