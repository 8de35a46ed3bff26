/** NVM streak verifier and reset-finish policy (l850_mutation_policy.c). */
module MutationPolicy {

  datatype Stage = PreReset | PostReset
  datatype Observation = Match | Mismatch | Invalid
  datatype Decision = Retry | Ready | FailInvalid
  datatype ResetFinish = Clean | Uncertain | UnclassifiedFailure | DefiniteFailure

  const PRE_RESET_REQUIRED_MATCHES: nat := 2
  const POST_RESET_REQUIRED_MATCHES: nat := 1

  function RequiredMatches(stage: Stage): nat {
    match stage
    case PreReset => PRE_RESET_REQUIRED_MATCHES
    case PostReset => POST_RESET_REQUIRED_MATCHES
  }

  function NextStreak(stage: Stage, streak: nat, observation: Observation): nat {
    if observation != Match then 0
    else if streak < RequiredMatches(stage) then streak + 1
    else streak
  }

  function Decide(stage: Stage, streak: nat, observation: Observation): Decision {
    match observation
    case Invalid => FailInvalid
    case Mismatch => Retry
    case Match => if NextStreak(stage, streak, Match) >= RequiredMatches(stage) then Ready else Retry
  }

  predicate ShouldReprobe(finish: ResetFinish) {
    finish != DefiniteFailure
  }

  /** The struct the coordinator embeds, updated in place by every observation. */
  class NvmVerifier {
    var stage: Stage
    var consecutiveMatches: nat

    constructor ()
      ensures stage == PreReset && consecutiveMatches == 0
    {
      stage, consecutiveMatches := PreReset, 0;
    }

    method Init(stage: Stage)
      modifies this
      ensures this.stage == stage && consecutiveMatches == 0
    {
      this.stage := stage;
      consecutiveMatches := 0;
    }

    method Observe(observation: Observation) returns (decision: Decision)
      modifies this
      ensures stage == old(stage)
      ensures consecutiveMatches == NextStreak(old(stage), old(consecutiveMatches), observation)
      ensures decision == Decide(old(stage), old(consecutiveMatches), observation)
    {
      var required := RequiredMatches(stage);
      if observation == Invalid {
        consecutiveMatches := 0;
        return FailInvalid;
      }
      if observation == Mismatch {
        consecutiveMatches := 0;
        return Retry;
      }
      if consecutiveMatches < required {
        consecutiveMatches := consecutiveMatches + 1;
      }
      return if consecutiveMatches >= required then Ready else Retry;
    }
  }

  /** Streak left by a freshly initialised verifier after a whole sequence of observations. */
  function Streak(stage: Stage, observations: seq<Observation>): nat {
    if observations == [] then 0
    else
      var last := |observations| - 1;
      NextStreak(stage, Streak(stage, observations[..last]), observations[last])
  }

  /** Independent reading of the same history: how many matches it ends with. */
  function TrailingMatches(observations: seq<Observation>): nat {
    if observations == [] || observations[|observations| - 1] != Match then 0
    else 1 + TrailingMatches(observations[..|observations| - 1])
  }

  lemma {:induction false} StreakCountsTrailingMatches(stage: Stage, observations: seq<Observation>)
    ensures Streak(stage, observations) ==
            if TrailingMatches(observations) < RequiredMatches(stage)
            then TrailingMatches(observations) else RequiredMatches(stage)
  {
    if observations != [] {
      StreakCountsTrailingMatches(stage, observations[..|observations| - 1]);
    }
  }

  /** Over every history, the verifier says Ready on an observation exactly when the last
      two (before the reset) or the last one (after it) observations are all matches. */
  lemma ReadyExactlyOnStreak(stage: Stage, observations: seq<Observation>, next: Observation)
    ensures Decide(stage, Streak(stage, observations), next) == Ready <==>
            && next == Match
            && (stage == PreReset ==> observations != [] && observations[|observations| - 1] == Match)
  {
    StreakCountsTrailingMatches(stage, observations);
  }
}
