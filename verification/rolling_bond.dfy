/** Period handling of rolling bonds, as the contract uses it when renewing. */
module RollingBond {
  import opened Numeric
  import opened Bond

  /** The current period has ended: `now` is at or past `start + duration`,
      the sum saturating so that an overflowing end never arrives early. */
  function IsPeriodEnded(now: U64, start: U64, duration: U64): (r: bool)
    ensures InU64(start + duration) ==> (r <==> now >= start + duration)
    ensures !InU64(start + duration) ==> (r <==> now == U64_MAX)
  {
    now >= SaturatingAdd(start, duration)
  }

  /** Starts a new period at `now` and clears a pending withdrawal request;
      amounts, duration and flags are kept. */
  function ApplyRenewal(b: IdentityBond, now: U64): (r: IdentityBond)
    ensures r.bondStart == now && r.withdrawalRequestedAt == 0
    ensures r.bondedAmount == b.bondedAmount && r.slashedAmount == b.slashedAmount
    ensures r.identity == b.identity && r.bondDuration == b.bondDuration
    ensures r.active == b.active && r.isRolling == b.isRolling
    ensures r.noticePeriodDuration == b.noticePeriodDuration
  {
    b.(bondStart := now, withdrawalRequestedAt := 0)
  }
}
