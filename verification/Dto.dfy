/** The exposition data model as plain values: what a decoded `dto.MetricFamily` says,
    apart from where its parts live in memory. */
module Dto {

  type Labels = map<string, string>

  datatype Option<+T> = None | Some(value: T)

  /** A point in time in nanoseconds since the epoch; 0 also stands for the zero time. */
  type Time = int

  datatype MetricType = COUNTER | GAUGE | SUMMARY | UNTYPED | HISTOGRAM

  /** The typed content of one metric. Which of the protobuf payload fields is set is `typ`. */
  datatype Payload = Payload(typ: MetricType, value: real)

  datatype Label = Label(name: string, value: string)

  datatype Sample = Sample(labels: seq<Label>, timestampMs: Option<int>, payload: Payload)

  datatype Family = Family(name: string, help: string, typ: MetricType, samples: seq<Sample>)

  const INSTANCE_LABEL: string := "instance"
  const JOB_LABEL: string := "job"
  const PUSH_METRIC_NAME: string := "push_time_seconds"
  const PUSH_METRIC_HELP: string := "Last Unix time when changing this group in the Pushgateway succeeded."
  const PUSH_FAILED_METRIC_NAME: string := "push_failure_time_seconds"
  const PUSH_FAILED_METRIC_HELP: string := "Last Unix time when changing this group in the Pushgateway failed."

  function Reserved(): set<string> { {PUSH_METRIC_NAME, PUSH_FAILED_METRIC_NAME} }

  /** The gauge value for a time; the zero time gives 0. */
  function Seconds(t: Time): real { t as real / 1000000000.0 }

  lemma ReservedNamesDiffer()
    ensures PUSH_METRIC_NAME != PUSH_FAILED_METRIC_NAME
  {
    assert PUSH_METRIC_NAME[5] != PUSH_FAILED_METRIC_NAME[5];
  }
}
