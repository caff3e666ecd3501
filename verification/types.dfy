/** Identifiers, the abort reasons of the contract and the result type every
    entry point returns. */
module Types {

  /** A ledger address; only equality is observable. */
  type Address(==)

  /** A short symbolic tag (the reason code of an emergency withdrawal). */
  type Symbol(==)

  datatype Option<+T> = None | Some(value: T)

  /** The reasons the contract aborts, one constructor per kind of abort
      site. One panic message covers two kinds of site, which the model
      tells apart: "slashed amount exceeds bonded amount" is raised both when
      `bonded - slashed` overflows (`AvailableOverflow`, reachable once a
      negative slash has made `slashed` negative) and by the re-check after
      a withdrawal (`SlashedExceedsBonded`, unreachable). The end-timestamp
      overflow of `create_bond` and of `extend_duration` share
      `EndTimestampOverflow`. */
  datatype Error =
    | NotInitialized        // no admin stored
    | NotAdmin              // caller is not the stored admin
    | NotGovernance         // caller is not the configured governance
    | MissingAuth           // `require_auth` of a co-signer fails
    | ConfigNotSet          // no emergency configuration stored
    | InvalidFeeBps         // emergency fee above 10000 basis points
    | EmergencyDisabled     // emergency mode is off
    | NonPositiveAmount     // emergency amount is zero or negative
    | NoBond                // no bond stored
    | AvailableOverflow     // `bonded - slashed` does not fit in i128 (same message as below)
    | InsufficientBalance   // amount above `bonded - slashed`
    | FeeOverflow           // `amount * fee_bps` does not fit in i128
    | FeeExceedsAmount      // `amount - fee` does not fit in i128
    | WithdrawalUnderflow   // `bonded - amount` does not fit in i128
    | SlashedExceedsBonded  // post-withdrawal check `slashed > bonded`
    | PostLockup            // early exit attempted at or after lock-up end
    | PenaltyAborted        // the early-exit penalty computation aborts
    | NotRolling            // withdrawal request on a non-rolling bond
    | AlreadyRequested      // withdrawal already requested
    | SlashOverflow         // `slashed + amount` does not fit in i128
    | TopUpOverflow         // `bonded + amount` does not fit in i128
    | DurationOverflow      // `duration + extra` does not fit in u64
    | EndTimestampOverflow  // `start + duration` does not fit in u64 (create or extend)
    | RecordIdOverflow      // next audit record id does not fit in u64
    | RecordNotFound        // no audit record under the id

  datatype Result<+T> = Ok(value: T) | Err(error: Error)
}
