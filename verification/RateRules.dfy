// Limits and answers common to both layers of src/services/rate_limiter.rs. Durations and
// clock readings are integer numbers of nanoseconds.
module RateRules {
  const SECOND := 1_000_000_000
  const HOUR := 3600 * SECOND

  datatype Rule = Rule(window: nat, maxRequests: nat, block: nat)

  datatype Decision = Allowed | JustBlocked | StillBlocked
}
