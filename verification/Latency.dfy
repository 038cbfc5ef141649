/** Message timing of the coarse discrete-event loop: every latency is in
    milliseconds and a simulation step lasts `MESSAGE_STEP_MS`. */
module Latency {

  const MESSAGE_STEP_MS: nat := 20

  datatype ProfileName = Low | Normal | High

  datatype LatencyProfile = LatencyProfile(feedMs: nat, decisionMs: nat, orderEntryMs: nat, cancelMs: nat)

  function ProfileFor(decisionMs: nat, name: ProfileName): LatencyProfile {
    match name
    case Low => LatencyProfile(0, decisionMs, 0, 0)
    case Normal => LatencyProfile(2, decisionMs, 2, 2)
    case High => LatencyProfile(20, decisionMs, 40, 20)
  }

  /** The stamps put on an order decided at one step. */
  datatype OrderTiming = OrderTiming(marketEventMs: nat, publicationMs: nat, observationMs: nat,
                                     decisionMs: nat, submissionMs: nat, arrivalMs: nat, arrivalStep: nat)

  function Timing(step: nat, latency: LatencyProfile): OrderTiming {
    var marketEvent := step * MESSAGE_STEP_MS;
    var publication := marketEvent + latency.feedMs;
    var observation := publication;
    var decision := observation + latency.decisionMs;
    var submission := decision;
    var arrival := submission + latency.orderEntryMs;
    OrderTiming(marketEvent, publication, observation, decision, submission, arrival, arrival / MESSAGE_STEP_MS)
  }

  /** How many steps after its decision an order reaches the exchange. */
  function EntryDelay(latency: LatencyProfile): nat {
    (latency.feedMs + latency.decisionMs + latency.orderEntryMs) / MESSAGE_STEP_MS
  }

  /** An agent's messages all take the same number of steps, whatever the step
      they leave at, and their arrival stamps grow with the step. */
  lemma DelayIsConstant(step: nat, latency: LatencyProfile)
    ensures Timing(step, latency).arrivalStep == step + EntryDelay(latency)
    ensures Timing(step, latency).arrivalMs
         == step * MESSAGE_STEP_MS + latency.feedMs + latency.decisionMs + latency.orderEntryMs
  {
  }

  /** Whether the automatic cancel of an order overtakes the order itself. */
  predicate CancelOvertakes(latency: LatencyProfile, cancelAfterMs: nat) {
    cancelAfterMs + latency.cancelMs < latency.orderEntryMs
  }

  /** Only the slow venue profile with a cancel interval below one step lets the
      gateway cancel overtake the order. */
  lemma OvertakingProfiles(decisionMs: nat, name: ProfileName, cancelAfterMs: nat)
    ensures CancelOvertakes(ProfileFor(decisionMs, name), cancelAfterMs)
       <==> name == High && cancelAfterMs < MESSAGE_STEP_MS
  {
  }
}
