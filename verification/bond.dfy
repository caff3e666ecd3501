/** The single bond record of a contract instance and the balance invariant
    `0 <= slashed <= bonded`, which the entry points keep for non-negative
    amounts. */
module Bond {
  import opened Numeric
  import opened Types

  /** Tier of a bonded amount, Bronze < Silver < Gold < Platinum. */
  datatype BondTier = Bronze | Silver | Gold | Platinum

  datatype IdentityBond = IdentityBond(
    identity: Address,
    bondedAmount: I128,
    bondStart: U64,
    bondDuration: U64,
    slashedAmount: I128,
    active: bool,
    isRolling: bool,
    withdrawalRequestedAt: U64,   // 0 means no withdrawal requested
    noticePeriodDuration: U64)

  /** The balance invariant 0 <= slashed <= bonded. */
  predicate BalanceInvariant(b: IdentityBond)
  {
    0 <= b.slashedAmount <= b.bondedAmount
  }

  /** The withdrawable balance `bonded - slashed`, before any width check. */
  function Available(b: IdentityBond): int
  {
    b.bondedAmount - b.slashedAmount
  }

  /** End of the lock-up, saturating at `U64_MAX`. */
  function LockupEnd(b: IdentityBond): U64
  {
    SaturatingAdd(b.bondStart, b.bondDuration)
  }
}
