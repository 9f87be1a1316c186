# cpu_monitor component: a Dafny model

This project models `CpuMonitorComponent`, the background telemetry component of
the lucid agent. The component samples the host's CPU percentage and, when the
host has temperature sensors, a temperature. It publishes each sample to the
agent's message-bus topic `lucid/agents/<agent_id>/status/cpu_monitor/metrics`.

The model has five modules, plus a small `Options` module:

- `Component` (component.dfy): the lifecycle fields that `start` and `stop`
  update in place. These are `stopEvent`, the thread handle `thread` and
  `temperatureAvailable`, held in a class. The worker's `_run_loop` and
  `_publish_metrics` are methods of the same class. A `LoopThread` object stands
  for a `threading.Thread`. Its `alive` flag is switched off by the environment
  (`Exit`), not by real concurrency.
- `Sampling` (sampling.dfy): the loop as a function `Run` of what the
  environment does on each cycle, with lemmas about the attempts it makes.
  Each cycle supplies the inputs of one sample and says how the 5-second wait
  ended. The wait either returned True, or timed out, or timed out and then the
  event was set before the next loop-head check.
- `Sensors` (sensors.dfy): the result of `psutil.sensors_temperatures()`, its
  flattening into one ordered entry list, capability detection and the
  first-match temperature read. Both loops are methods proved against
  recursive specification functions.
- `Metrics` (metrics.dfy): the topic, the three-key payload, the published
  message (qos 0, not retained) and the outcome of one sample cycle.
- `Timestamp` (timestamp.dfy): `strftime("%Y-%m-%dT%H:%M:%SZ")` of given UTC
  date-time fields, with a parser and both round trips.

Where the code does something other than one might expect, the model follows the code:

- One would expect a failed temperature read only to blank that sample's
  temperature. In the code, `_read_temperature` catches only
  `TypeError` and `ValueError` from `float(current)`. Any other exception,
  such as `OverflowError` for a huge integer, propagates out of
  `_publish_metrics`, so the whole cycle fails and is logged. The model keeps
  this as `Sensors.ConversionRaises`, which leads to `Metrics.SampleFailed`.
- `_temperature_available` starts out True before the first `start`.

`Component.RestartAfterSlowStop` shows a consequence of the one-second join.
Suppose `stop` drops a thread that is still alive and `start` then runs again.
A second live loop is recorded, and the event both loops wait on is cleared
again. The code tolerates a loop that still samples and publishes after `stop` returns. The
model states the race but does not model how the two threads then interleave.

## Model

| member | source | states |
|---|---|---|
| `Component.CpuMonitorComponent.constructor` | src/lucid_agent_cpu/component.py:16-22 | a new component has no thread handle, a clear event and the temperature flag True |
| `Component.LoopThread.constructor` | src/lucid_agent_cpu/component.py:33-38 | a newly created and started loop thread is alive |
| `Component.LoopThread.Exit` | src/lucid_agent_cpu/component.py:51-58 | once the thread's target has returned, the thread is no longer alive |
| `Component.CpuMonitorComponent.Running` | src/lucid_agent_cpu/component.py:25 | defined as: a handle is recorded and its thread is alive, the test `start` makes before returning early |
| `Component.CpuMonitorComponent.Start` | src/lucid_agent_cpu/component.py:24-39 | with a live recorded thread nothing changes: same handle, same event, same flag; otherwise the event is clear, a fresh live handle is recorded and the flag equals "some sensor group holds a non-empty list"; a dead old handle counts as not running |
| `Component.CpuMonitorComponent.Stop` | src/lucid_agent_cpu/component.py:41-49 | with no handle, nothing changes; otherwise the event is set and the handle is dropped whether or not the thread is still alive; the temperature flag is untouched |
| `Component.CpuMonitorComponent.PublishMetrics` | src/lucid_agent_cpu/component.py:60-70 | the outcome of one attempt is the one `Metrics.Sample` defines for this component's agent id and flag |
| `Component.CpuMonitorComponent.RunLoop` | src/lucid_agent_cpu/component.py:51-58 | the attempts the loop makes and whether it returns are those `Sampling.Run` gives for the event state on entry; an event set on entry means no attempt |
| `Component.StartTwice` | src/lucid_agent_cpu/component.py:24-26 | a second start keeps the first start's live thread, event and flag: one loop |
| `Component.StopTwice` | src/lucid_agent_cpu/component.py:41-44 | a second stop leaves the stopped state as it was |
| `Component.RestartAfterExit` | src/lucid_agent_cpu/component.py:24-38 | after the loop thread has ended, start records a new live thread and re-detects the flag from the new query |
| `Component.RestartAfterSlowStop` | src/lucid_agent_cpu/component.py:24-48 | a stop whose thread is still alive followed by a start leaves two live loop threads and the event clear |
| `Sampling.Run` | src/lucid_agent_cpu/component.py:51-58 | defined as: no attempt when the loop head sees the event set; otherwise one sample of the cycle, then a True wait ends the loop, a timed-out wait returns to the loop head, and a wait followed by the event being set ends it at that head; the loop has not returned if the cycles run out |
| `Sampling.RunStep` | src/lucid_agent_cpu/component.py:52-58 | from a clear event, one cycle is one attempt, after which a True wait ends the loop and a timed-out wait goes back to the loop-head check |
| `Sampling.StopIndex` | src/lucid_agent_cpu/component.py:57-58 | the index it gives is the first cycle whose wait did not simply time out, or the number of cycles |
| `Sampling.RunPreSet` | src/lucid_agent_cpu/component.py:52 | an event already set at the loop head gives zero attempts and the loop returns |
| `Sampling.RunAttempts` | src/lucid_agent_cpu/component.py:51-58 | the number of attempts equals the number of cycles up to and including the first cycle whose wait saw the event, and the loop returns exactly when such a cycle exists |
| `Sampling.RunOutcomes` | src/lucid_agent_cpu/component.py:53-56 | the k-th attempt is exactly the sample of the k-th cycle, whatever earlier attempts did |
| `Sampling.FailureIsolation` | src/lucid_agent_cpu/component.py:53-57 | an attempt on cycle k, failed or not, whose wait timed out is followed by an attempt on cycle k + 1 |
| `Sampling.LoggedFailureThenNextAttempt` | src/lucid_agent_cpu/component.py:53-57 | an attempt logs an error if and only if its CPU read, temperature read or publish raised, and when its wait timed out the next cycle is sampled all the same |
| `Sampling.NoTemperatureWhenUnavailable` | src/lucid_agent_cpu/component.py:73-74 | with the flag False, every message the loop publishes carries `temperature_c` as None |
| `Sampling.RunMessages` | src/lucid_agent_cpu/component.py:68-69 | every message the loop publishes goes to this agent's metrics topic with qos 0 and retain False |
| `Sensors.Flatten` | src/lucid_agent_cpu/component.py:103-107 | defined as: the lists of the list-valued groups concatenated in group order; values that are not lists contribute nothing |
| `Sensors.Entries` | src/lucid_agent_cpu/component.py:90-101 | a missing or uncallable sensors function, a raising call or a non-dict result gives no entries |
| `Sensors.TemperatureEntries` | src/lucid_agent_cpu/component.py:90-107 | the loop returns the entries `Entries` defines: none in the three error cases, else the list-valued groups concatenated in order |
| `Sensors.FlattenAppend` | src/lucid_agent_cpu/component.py:103-107 | flattening the concatenation of two group lists is the concatenation of their flattenings |
| `Sensors.FlattenSingle` | src/lucid_agent_cpu/component.py:104-106 | one group contributes its list, or nothing when its value is not a list |
| `Sensors.FlattenEmpty` | src/lucid_agent_cpu/component.py:103-107 | the flattened list is empty if and only if no group holds a non-empty list |
| `Sensors.FlattenMember` | src/lucid_agent_cpu/component.py:103-107 | an entry is in the flattened list if and only if some list-valued group holds it |
| `Sensors.DetectTemperatureAvailable` | src/lucid_agent_cpu/component.py:87-88 | temperature is available if and only if the query returned a dict with some list-valued group that is non-empty |
| `Sensors.FirstUsable` | src/lucid_agent_cpu/component.py:77-85 | defined as: scanning in order, an entry with `current` missing, None or failing with TypeError/ValueError is skipped; the first other entry gives its converted value or its uncaught exception; None when the list runs out |
| `Sensors.FirstUsableAt` | src/lucid_agent_cpu/component.py:77-84 | the first entry that is not skipped decides the read: its converted value, or the exception it raised |
| `Sensors.FirstUsableNone` | src/lucid_agent_cpu/component.py:77-85 | when every entry has `current` missing, None or failing with TypeError/ValueError, the read is None |
| `Sensors.FirstUsableCelsius` | src/lucid_agent_cpu/component.py:77-84 | the read is v if and only if some entry converts to v and every entry before it was skipped |
| `Sensors.ReadTemperature` | src/lucid_agent_cpu/component.py:72-85 | None when the flag is False; otherwise the first-match result over a fresh query's entries |
| `Metrics.MetricsTopic` | src/lucid_agent_cpu/component.py:68 | defined as: `lucid/agents/` followed by the agent id and `/status/cpu_monitor/metrics` |
| `Metrics.CycleTemperature` | src/lucid_agent_cpu/component.py:73-76 | defined as: no reading when the flag is False, otherwise the first-match read over a fresh query's entries |
| `Metrics.TopicRoundTrip` | src/lucid_agent_cpu/component.py:68 | the agent id is recovered from the topic `lucid/agents/<agent_id>/status/cpu_monitor/metrics` |
| `Metrics.TopicAgentSound` | src/lucid_agent_cpu/component.py:68 | any topic from which an agent id is recovered is exactly that agent's metrics topic |
| `Metrics.TopicInjective` | src/lucid_agent_cpu/component.py:68 | distinct agents publish on distinct topics |
| `Metrics.TopicExample` | src/lucid_agent_cpu/component.py:13 | agent `abc123` publishes on `lucid/agents/abc123/status/cpu_monitor/metrics` |
| `Metrics.Payload` | src/lucid_agent_cpu/component.py:63-67 | the payload has exactly the keys `cpu_percent`, `temperature_c` and `timestamp` |
| `Metrics.PayloadRoundTrip` | src/lucid_agent_cpu/component.py:63-67 | the CPU value, the temperature or None, and the timestamp are read back unchanged from the payload |
| `Metrics.Sample` | src/lucid_agent_cpu/component.py:60-69 | a cycle fails if and only if the CPU read raises or the temperature read raises; otherwise publish is called on the agent's topic with qos 0, retain False and the three fields, and it raises exactly when the bus raises; with the flag False the temperature is None |
| `Metrics.FirstMatchExample` | src/lucid_agent_cpu/component.py:76-84 | a group whose first entry's `current` is None and whose second reads 42.0 publishes 42.0 |
| `Timestamp.Format` | src/lucid_agent_cpu/component.py:110-111 | the timestamp is 20 characters: four year digits, two-digit month, day, hour, minute and second, separated by `-`, `T` and `:` and ending in `Z` |
| `Timestamp.FormatParse` | src/lucid_agent_cpu/component.py:110-111 | parsing a formatted timestamp gives back the date-time fields |
| `Timestamp.ParseFormat` | src/lucid_agent_cpu/component.py:110-111 | every string that parses is the formatting of what it parses to |
| `Timestamp.FormatInjective` | src/lucid_agent_cpu/component.py:110-111 | distinct instants give distinct timestamps |
| `Timestamp.FormatExample` | src/lucid_agent_cpu/component.py:111 | 2024-01-02 03:04:05 UTC formats as `2024-01-02T03:04:05Z` |

## Left out

- Threads are not modelled as concurrency. This covers `threading.Thread` creation, the daemon flag, the `join(timeout=1.0)` wait and the 5-second `Event.wait`. A thread is a handle with an `alive` flag that the environment switches off. After entry, the worker sees the stop event only through each cycle's wait result.
- `Component.CpuMonitorComponent.RunLoop` reads the event once at entry; a later `stop` reaches it only through the wait results the environment supplies, so interleavings of `stop` with a running sample are not modelled.
- `Component.CpuMonitorComponent.Stop` does not model the join's timing: the join outcome is never consulted by the code, so the model does not take one.
- psutil's values are `real`, and conversion with `float()` is given as an input (`Convertible`, `Unconvertible`, `ConversionRaises`). Floating-point rounding and the 0 to 100 range of the CPU percentage are not modelled.
- An exception raised while reading `current` itself, other than `AttributeError`, is folded into `ConversionRaises`, because it propagates the same way.
- The base `Component` class and `context.mqtt.publish` are foreign code. Publishing is recorded as a `Message` in the outcome. Whether publish raises is an input.
- Payload key order and JSON serialisation are done by the bus client and are not modelled. The payload is a `map`.
- Logging (`info`, `debug`, `exception`) is output only. The error log of a failed cycle is implied by its outcome (`Metrics.ErrorLogged`).
- `datetime.now` is a clock; the model formats given UTC fields.
- `Timestamp.Format` zero-pads the year to four digits for every year from 1 to 9999. The C library's `%Y` on some platforms does not pad years below 1000. A clock reading the current time never produces such years.
- The sensor dict is a sequence of (name, value) pairs in iteration order. Distinct names are not required, since only the values are read.
