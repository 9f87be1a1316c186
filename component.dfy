/**
 * `CpuMonitorComponent`: the lifecycle fields `start` and `stop` update in
 * place, and the loop and sample methods the worker thread runs. Threads are
 * not modelled as concurrency: a thread is a handle whose liveness the
 * environment switches off, and what the worker sees of the stop event after
 * entry comes in as each cycle's wait result.
 */
module Component {
  import Sensors
  import Timestamp
  import Metrics
  import Sampling

  /** The `threading.Thread` that runs `_run_loop`. */
  class LoopThread {
    var alive: bool

    constructor ()
      ensures alive
    {
      alive := true;
    }

    /** The environment: the thread's target returned. */
    method Exit()
      modifies this
      ensures !alive
    {
      alive := false;
    }
  }

  class CpuMonitorComponent {
    /** `context.agent_id`, fixed for the life of the component. */
    const agentId: string
    /** Whether `_stop_event` is set. */
    var stopEvent: bool
    /** `_thread`: None, or the handle of the last loop started. */
    var thread: LoopThread?
    /** `_temperature_available`. */
    var temperatureAvailable: bool

    constructor (agentId: string)
      ensures this.agentId == agentId
      ensures !stopEvent && thread == null && temperatureAvailable
    {
      this.agentId := agentId;
      stopEvent := false;
      thread := null;
      temperatureAvailable := true;
    }

    /** A handle is recorded and its thread is alive. */
    predicate Running()
      reads this, thread
    {
      thread != null && thread.alive
    }

    /**
     * `start`: nothing while the recorded thread is alive; otherwise re-detect
     * temperature support, clear the event and record a fresh live thread.
     */
    method Start(sensors: Sensors.SensorQuery)
      modifies this
      ensures Running()
      ensures old(Running()) ==>
        thread == old(thread) && stopEvent == old(stopEvent) && temperatureAvailable == old(temperatureAvailable)
      ensures !old(Running()) ==>
        && fresh(thread)
        && !stopEvent
        && (temperatureAvailable <==> Sensors.HasReadings(sensors))
    {
      if thread != null && thread.alive {
        return;
      }
      temperatureAvailable := Sensors.DetectTemperatureAvailable(sensors);
      stopEvent := false;
      thread := new LoopThread();
    }

    /**
     * `stop`: nothing without a handle; otherwise set the event and drop the
     * handle. The one-second join is not consulted, so a thread that has not
     * finished is dropped still alive.
     */
    method Stop()
      modifies this
      ensures thread == null
      ensures old(thread) == null ==> stopEvent == old(stopEvent)
      ensures old(thread) != null ==> stopEvent && old(thread).alive == old(thread.alive)
      ensures temperatureAvailable == old(temperatureAvailable)
    {
      var t := thread;
      if t == null {
        return;
      }
      stopEvent := true;
      thread := null;
    }

    /**
     * `_publish_metrics` with this component's agent and availability flag.
     * It follows `Metrics.Sample` case for case; the only difference is that
     * the temperature comes from the looping `Sensors.ReadTemperature`.
     */
    method PublishMetrics(env: Metrics.SampleEnv) returns (o: Metrics.Outcome)
      ensures o == Metrics.Sample(agentId, temperatureAvailable, env)
    {
      if env.cpu.CpuRaised? {
        return Metrics.SampleFailed;
      }
      var t := Sensors.ReadTemperature(temperatureAvailable, env.sensors);
      if t.ReadRaised? {
        return Metrics.SampleFailed;
      }
      var payload := Metrics.Payload(env.cpu.value, Metrics.TemperatureField(t), Timestamp.Format(env.clock));
      var message := Metrics.Message(Metrics.MetricsTopic(agentId), payload, 0, false);
      if env.publishRaises {
        o := Metrics.PublishRaised(message);
      } else {
        o := Metrics.Published(message);
      }
    }

    /**
     * `_run_loop` over the cycles the environment supplies: sample, then wait;
     * a failed sample is recorded and the loop goes on; it leaves at a loop
     * head that sees the event set or after a wait that reports it.
     */
    method RunLoop(cycles: seq<Sampling.Cycle>) returns (trace: seq<Metrics.Outcome>, ended: bool)
      ensures Sampling.LoopResult(trace, ended) == Sampling.Run(agentId, temperatureAvailable, stopEvent, cycles)
      ensures stopEvent ==> trace == []
    {
      trace := [];
      var eventSet := stopEvent;
      var i := 0;
      ghost var whole := Sampling.Run(agentId, temperatureAvailable, stopEvent, cycles);
      ghost var rest := whole;
      assert cycles[0..] == cycles;
      while !eventSet && i < |cycles|
        invariant 0 <= i <= |cycles|
        invariant rest == Sampling.Run(agentId, temperatureAvailable, eventSet, cycles[i..])
        invariant whole == Sampling.LoopResult(trace + rest.trace, rest.ended)
      {
        var o := PublishMetrics(cycles[i].sample);
        Sampling.RunStep(agentId, temperatureAvailable, cycles, i, o);
        trace := trace + [o];
        if cycles[i].wait.Signalled? {
          return trace, true;
        }
        rest := Sampling.Run(agentId, temperatureAvailable, cycles[i].wait.TimedOutThenSignalled?, cycles[i + 1..]);
        if cycles[i].wait.TimedOutThenSignalled? {
          eventSet := true;
        }
        i := i + 1;
      }
      assert !eventSet ==> cycles[i..] == [];
      ended := eventSet;
    }
  }

  /** Two starts in a row leave the first start's loop as the only one recorded. */
  method StartTwice(agentId: string, first: Sensors.SensorQuery, second: Sensors.SensorQuery)
    returns (c: CpuMonitorComponent, loop: LoopThread)
    ensures c.thread == loop && loop.alive && !c.stopEvent
    ensures c.temperatureAvailable <==> Sensors.HasReadings(first)
  {
    c := new CpuMonitorComponent(agentId);
    c.Start(first);
    loop := c.thread;
    c.Start(second);
  }

  /** A second stop changes nothing. */
  method StopTwice(agentId: string, sensors: Sensors.SensorQuery) returns (c: CpuMonitorComponent)
    ensures c.thread == null && c.stopEvent
    ensures c.temperatureAvailable <==> Sensors.HasReadings(sensors)
  {
    c := new CpuMonitorComponent(agentId);
    c.Start(sensors);
    c.Stop();
    c.Stop();
  }

  /** A loop that exited by itself does not block a restart: a new loop is recorded. */
  method RestartAfterExit(agentId: string, first: Sensors.SensorQuery, second: Sensors.SensorQuery)
    returns (c: CpuMonitorComponent, previous: LoopThread)
    ensures c.Running() && c.thread != previous && !previous.alive
    ensures c.temperatureAvailable <==> Sensors.HasReadings(second)
  {
    c := new CpuMonitorComponent(agentId);
    c.Start(first);
    previous := c.thread;
    previous.Exit();
    c.Start(second);
  }

  /**
   * A stop whose join times out drops a handle whose thread is still alive;
   * a following start records a second live loop and clears the event both
   * loops wait on.
   */
  method RestartAfterSlowStop(agentId: string, sensors: Sensors.SensorQuery)
    returns (c: CpuMonitorComponent, orphan: LoopThread)
    ensures orphan.alive && c.Running() && c.thread != orphan && !c.stopEvent
  {
    c := new CpuMonitorComponent(agentId);
    c.Start(sensors);
    orphan := c.thread;
    c.Stop();
    c.Start(sensors);
  }
}
