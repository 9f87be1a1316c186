/**
 * The sampling loop `_run_loop` as a function of what the environment does on
 * each cycle: the sample's inputs and how the 5-second wait on the stop event ends.
 */
module Sampling {
  import Metrics

  /** How a cycle's `self._stop_event.wait(5.0)` ends, and what the next loop-head check then sees. */
  datatype Wait =
    | Signalled              // wait returned True: the loop breaks
    | TimedOut               // wait returned False and the event is still clear at the loop head
    | TimedOutThenSignalled  // wait returned False, but the event was set before the loop head

  datatype Cycle = Cycle(sample: Metrics.SampleEnv, wait: Wait)

  /** The sample attempts made, in order, and whether the loop returned within the given cycles. */
  datatype LoopResult = LoopResult(trace: seq<Metrics.Outcome>, ended: bool)

  function Prepend(o: Metrics.Outcome, r: LoopResult): LoopResult {
    LoopResult([o] + r.trace, r.ended)
  }

  /** The loop from a loop-head check that sees the event as `eventSet`. */
  function Run(agentId: string, available: bool, eventSet: bool, cycles: seq<Cycle>): LoopResult
    decreases |cycles|
  {
    if eventSet then LoopResult([], true)
    else if cycles == [] then LoopResult([], false)
    else
      var o := Metrics.Sample(agentId, available, cycles[0].sample);
      match cycles[0].wait
      case Signalled => LoopResult([o], true)
      case TimedOut => Prepend(o, Run(agentId, available, false, cycles[1..]))
      case TimedOutThenSignalled => Prepend(o, Run(agentId, available, true, cycles[1..]))
  }

  /** One loop step from a clear event at cycle i: its attempt, then the rest as its wait decides. */
  lemma RunStep(agentId: string, available: bool, cycles: seq<Cycle>, i: nat, o: Metrics.Outcome)
    requires i < |cycles| && o == Metrics.Sample(agentId, available, cycles[i].sample)
    ensures Run(agentId, available, false, cycles[i..]) ==
      if cycles[i].wait.Signalled? then LoopResult([o], true)
      else Prepend(o, Run(agentId, available, cycles[i].wait.TimedOutThenSignalled?, cycles[i + 1..]))
  {
    assert cycles[i..][1..] == cycles[i + 1..];
  }

  /** The index of the first cycle after which the loop stops, or |cycles| if none. */
  function StopIndex(cycles: seq<Cycle>): (k: nat)
    ensures k <= |cycles|
    ensures forall j :: 0 <= j < k ==> cycles[j].wait.TimedOut?
    ensures k < |cycles| ==> !cycles[k].wait.TimedOut?
  {
    if cycles == [] || !cycles[0].wait.TimedOut? then 0 else 1 + StopIndex(cycles[1..])
  }

  /** A stop event already set on entry means no sample at all. */
  lemma RunPreSet(agentId: string, available: bool, cycles: seq<Cycle>)
    ensures Run(agentId, available, true, cycles) == LoopResult([], true)
  {
  }

  /**
   * One attempt per cycle up to and including the first cycle whose wait saw
   * the event; the loop returns exactly when there is such a cycle.
   */
  lemma {:induction false} RunAttempts(agentId: string, available: bool, cycles: seq<Cycle>)
    ensures var r := Run(agentId, available, false, cycles);
      && |r.trace| == (if StopIndex(cycles) < |cycles| then StopIndex(cycles) + 1 else |cycles|)
      && (r.ended <==> StopIndex(cycles) < |cycles|)
  {
    if cycles != [] && cycles[0].wait.TimedOut? {
      RunAttempts(agentId, available, cycles[1..]);
    }
  }

  /** The k-th attempt is the sample of the k-th cycle, whatever happened on earlier cycles. */
  lemma {:induction false} RunOutcomes(agentId: string, available: bool, cycles: seq<Cycle>)
    ensures var r := Run(agentId, available, false, cycles);
      forall k :: 0 <= k < |r.trace| ==> k < |cycles| && r.trace[k] == Metrics.Sample(agentId, available, cycles[k].sample)
  {
    if cycles != [] && cycles[0].wait.TimedOut? {
      RunOutcomes(agentId, available, cycles[1..]);
    }
  }

  /**
   * Failure isolation: a failed attempt on cycle k whose wait timed out is
   * followed by an attempt on cycle k + 1.
   */
  lemma FailureIsolation(agentId: string, available: bool, cycles: seq<Cycle>, k: nat)
    requires k + 1 < |cycles|
    requires forall j :: 0 <= j <= k ==> cycles[j].wait.TimedOut?
    ensures var r := Run(agentId, available, false, cycles);
      && |r.trace| > k + 1
      && r.trace[k] == Metrics.Sample(agentId, available, cycles[k].sample)
      && r.trace[k + 1] == Metrics.Sample(agentId, available, cycles[k + 1].sample)
  {
    RunAttempts(agentId, available, cycles);
    RunOutcomes(agentId, available, cycles);
  }

  /**
   * An attempt that logs an error is one whose CPU read, temperature read or
   * publish raised; when its wait timed out, the next cycle is still sampled.
   */
  lemma LoggedFailureThenNextAttempt(agentId: string, available: bool, cycles: seq<Cycle>, k: nat)
    requires k + 1 < |cycles|
    requires forall j :: 0 <= j <= k ==> cycles[j].wait.TimedOut?
    ensures var r := Run(agentId, available, false, cycles);
      var env := cycles[k].sample;
      && |r.trace| > k + 1
      && (Metrics.ErrorLogged(r.trace[k]) <==>
            env.cpu.CpuRaised? || Metrics.CycleTemperature(available, env.sensors).ReadRaised? || env.publishRaises)
      && r.trace[k + 1] == Metrics.Sample(agentId, available, cycles[k + 1].sample)
  {
    FailureIsolation(agentId, available, cycles, k);
  }

  /** With temperature unavailable, no published payload carries a temperature. */
  lemma NoTemperatureWhenUnavailable(agentId: string, cycles: seq<Cycle>)
    ensures var r := Run(agentId, false, false, cycles);
      forall k :: 0 <= k < |r.trace| && !r.trace[k].SampleFailed? ==>
        && Metrics.TemperatureKey in r.trace[k].message.payload
        && r.trace[k].message.payload[Metrics.TemperatureKey] == Metrics.Null
  {
    RunOutcomes(agentId, false, cycles);
  }

  /** Every message the loop hands to publish goes to this agent's metrics topic with qos 0, not retained. */
  lemma RunMessages(agentId: string, available: bool, cycles: seq<Cycle>)
    ensures var r := Run(agentId, available, false, cycles);
      forall k :: 0 <= k < |r.trace| && !r.trace[k].SampleFailed? ==>
        && r.trace[k].message.topic == Metrics.MetricsTopic(agentId)
        && r.trace[k].message.qos == 0
        && !r.trace[k].message.retain
  {
    RunOutcomes(agentId, available, cycles);
  }
}
