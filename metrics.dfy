/**
 * One sample cycle, `_publish_metrics`: read the CPU percentage, read the
 * temperature, format the timestamp, build the payload and the topic, and
 * publish with qos 0 and no retain. The bus client and psutil are inputs.
 */
module Metrics {
  import opened Options
  import Sensors
  import Timestamp

  const ComponentId: string := "cpu_monitor"
  const TopicPrefix: string := "lucid/agents/"
  const TopicSuffix: string := "/status/" + ComponentId + "/metrics"

  /** `f"lucid/agents/{agent_id}/status/{component_id}/metrics"`. */
  function MetricsTopic(agentId: string): string {
    TopicPrefix + agentId + TopicSuffix
  }

  /** The agent a metrics topic belongs to; None for a topic of any other shape. */
  function TopicAgent(topic: string): (r: Option<string>)
    ensures r.Some? ==> |topic| == |TopicPrefix| + |r.value| + |TopicSuffix|
  {
    if |topic| >= |TopicPrefix| + |TopicSuffix|
       && topic[..|TopicPrefix|] == TopicPrefix
       && topic[|topic| - |TopicSuffix|..] == TopicSuffix
    then Some(topic[|TopicPrefix|..|topic| - |TopicSuffix|])
    else None
  }

  lemma TopicRoundTrip(agentId: string)
    ensures TopicAgent(MetricsTopic(agentId)) == Some(agentId)
  {
    var t := MetricsTopic(agentId);
    assert t[..|TopicPrefix|] == TopicPrefix;
    assert t[|t| - |TopicSuffix|..] == TopicSuffix;
    assert t[|TopicPrefix|..|t| - |TopicSuffix|] == agentId;
  }

  lemma TopicAgentSound(topic: string, agentId: string)
    requires TopicAgent(topic) == Some(agentId)
    ensures MetricsTopic(agentId) == topic
  {
    var p, n := |TopicPrefix|, |topic| - |TopicSuffix|;
    assert topic == topic[..p] + topic[p..n] + topic[n..];
  }

  /** Distinct agents publish on distinct topics. */
  lemma TopicInjective(a1: string, a2: string)
    requires MetricsTopic(a1) == MetricsTopic(a2)
    ensures a1 == a2
  {
    TopicRoundTrip(a1);
    TopicRoundTrip(a2);
  }

  lemma TopicExample()
    ensures MetricsTopic("abc123") == "lucid/agents/abc123/status/cpu_monitor/metrics"
  {
  }

  /** The Python values a payload holds. */
  datatype Value = Float(x: real) | Null | Str(s: string)

  const CpuKey: string := "cpu_percent"
  const TemperatureKey: string := "temperature_c"
  const TimestampKey: string := "timestamp"

  /** The payload dict of one sample. */
  function Payload(cpu: real, temperature: Option<real>, timestamp: string): (p: map<string, Value>)
    ensures p.Keys == {CpuKey, TemperatureKey, TimestampKey}
  {
    map[CpuKey := Float(cpu),
        TemperatureKey := (if temperature.Some? then Float(temperature.value) else Null),
        TimestampKey := Str(timestamp)]
  }

  /** Reads the three fields back out of a payload; None for any other shape. */
  function PayloadFields(p: map<string, Value>): (r: Option<(real, Option<real>, string)>)
    ensures r.Some? ==> p.Keys == {CpuKey, TemperatureKey, TimestampKey}
  {
    if p.Keys == {CpuKey, TemperatureKey, TimestampKey}
       && p[CpuKey].Float? && !p[TemperatureKey].Str? && p[TimestampKey].Str?
    then
      var t := if p[TemperatureKey].Float? then Some(p[TemperatureKey].x) else None;
      Some((p[CpuKey].x, t, p[TimestampKey].s))
    else None
  }

  lemma PayloadRoundTrip(cpu: real, temperature: Option<real>, timestamp: string)
    ensures PayloadFields(Payload(cpu, temperature, timestamp)) == Some((cpu, temperature, timestamp))
  {
  }

  /** One call of `mqtt.publish(topic, payload, qos=..., retain=...)`. */
  datatype Message = Message(topic: string, payload: map<string, Value>, qos: nat, retain: bool)

  /** `psutil.cpu_percent(interval=None)` converted with float(), or the exception it raised. */
  datatype CpuReading = CpuPercent(value: real) | CpuRaised

  /** Everything one cycle takes from outside: psutil, the clock and whether publish raises. */
  datatype SampleEnv = SampleEnv(
    cpu: CpuReading,
    sensors: Sensors.SensorQuery,
    clock: Timestamp.UtcDateTime,
    publishRaises: bool)

  /** How one sample attempt ends. */
  datatype Outcome =
    | Published(message: Message)      // publish returned
    | PublishRaised(message: Message)  // publish was called and raised; the error is logged
    | SampleFailed                     // an exception before publish; the error is logged

  /** Whether the loop logs "Failed to publish CPU metrics" for this attempt. */
  predicate ErrorLogged(o: Outcome) {
    !o.Published?
  }

  /** The temperature the payload carries for a read. */
  function TemperatureField(t: Sensors.TemperatureRead): Option<real> {
    if t.Celsius? then Some(t.value) else None
  }

  /** The temperature read of one cycle, given the availability flag. */
  function CycleTemperature(available: bool, q: Sensors.SensorQuery): Sensors.TemperatureRead {
    if available then Sensors.FirstUsable(Sensors.Entries(q)) else Sensors.NoReading
  }

  /** One `_publish_metrics` call. */
  function Sample(agentId: string, available: bool, env: SampleEnv): (o: Outcome)
    ensures o.SampleFailed? <==> env.cpu.CpuRaised? || CycleTemperature(available, env.sensors).ReadRaised?
    ensures o.PublishRaised? <==> !o.SampleFailed? && env.publishRaises
    ensures !o.SampleFailed? ==>
      && o.message.topic == MetricsTopic(agentId)
      && o.message.qos == 0
      && !o.message.retain
      && PayloadFields(o.message.payload) ==
           Some((env.cpu.value, TemperatureField(CycleTemperature(available, env.sensors)), Timestamp.Format(env.clock)))
    ensures !o.SampleFailed? && !available ==> o.message.payload[TemperatureKey] == Null
  {
    if env.cpu.CpuRaised? then SampleFailed
    else
      var t := CycleTemperature(available, env.sensors);
      if t.ReadRaised? then SampleFailed
      else
        var payload := Payload(env.cpu.value, TemperatureField(t), Timestamp.Format(env.clock));
        var m := Message(MetricsTopic(agentId), payload, 0, false);
        if env.publishRaises then PublishRaised(m) else Published(m)
  }

  /**
   * Groups whose first entry has no usable `current` and whose second reads 42.0
   * publish a temperature of 42.0.
   */
  lemma FirstMatchExample(agentId: string, cpu: real, clock: Timestamp.UtcDateTime)
    ensures
      var q := Sensors.Groups([("coretemp", Sensors.Readings([
                 Sensors.SensorEntry(Sensors.NoneCurrent),
                 Sensors.SensorEntry(Sensors.Convertible(42.0))]))]);
      var o := Sample(agentId, true, SampleEnv(CpuPercent(cpu), q, clock, false));
      o.Published? && o.message.payload[TemperatureKey] == Float(42.0)
  {
    var es := [Sensors.SensorEntry(Sensors.NoneCurrent), Sensors.SensorEntry(Sensors.Convertible(42.0))];
    var q := Sensors.Groups([("coretemp", Sensors.Readings(es))]);
    Sensors.FlattenSingle(("coretemp", Sensors.Readings(es)));
    Sensors.FirstUsableAt(es, 1);
  }
}
