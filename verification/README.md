# Credence bond: a Dafny model of the `CredenceBond` contract

`CredenceBond` is a Soroban smart contract. It holds one identity's stake, called a bond, and covers:
- creating a bond and topping it up;
- plain withdrawal, and early withdrawal with a penalty;
- withdrawal requests and renewal for rolling bonds;
- admin slashing and extending the lock-up;
- emergency withdrawals approved by both admin and governance. Each one is charged a fee and recorded in an append-only audit log.

This project models every entry point as a pure transition. The inputs are the stored state, the call's arguments, the ledger time `now` (read once per call) and the set of addresses whose authorisation the host accepts. The result is either the new stored state or an abort (`Result.Err`) that leaves storage unchanged. Checked integer arithmetic is written out against the `i128`, `u64` and `u32` ranges.

Modules:
- `Numeric` has the integer widths, saturating `u64` addition and subtraction, and Rust's division that rounds toward zero.
- `Types` has the opaque `Address` and `Symbol`, one `Error` per kind of abort site, and `Option`/`Result`.
- `Emergency` models `emergency.rs`: the configuration, the fee, and the audit log. The log is a record counter plus a `map<nat, Record>`.
- `Bond` holds the `IdentityBond` record and the balance invariant `0 <= slashed <= bonded`.
- `RollingBond` holds period-end and renewal, as `renew_if_rolling` uses them.
- `CredenceBond` models the entry points of `lib.rs`.
- `Lifecycle` models sequences of calls and proves, by induction, what holds in every state they reach.

The model follows the code wherever it differs from its doc comments. It states the following points explicitly:
- `withdraw` checks only the available balance `bonded - slashed`. It checks neither the lock-up nor a rolling bond's notice period (`WithdrawIgnoresTiming`).
- `create_bond`, `top_up` and `slash` do not check the sign of `amount`. So the invariant `0 <= slashed <= bonded` holds only for non-negative amounts (`NegativeTopUpBreaksInvariant`, `NegativeSlashBreaksInvariant`, `RunKeepsBondInvariant`).
- `withdraw_early` and `emergency_withdraw` both take the gross amount off the bond. The penalty or fee is carved out of that gross amount.
- After a withdrawal, the check "slashed amount exceeds bonded amount" can never fire. Every withdrawal path proves `r != Err(SlashedExceedsBonded)`.
- The "emergency fee exceeds amount" abort is an `i128` overflow check on `amount - fee`. It is not a comparison, and it can never fire for a positive amount.
- `slash` compares the caller with the stored admin but never calls `require_auth`.
- `create_bond` replaces any stored bond and needs no authorisation.
- `withdraw`, `withdraw_early`, `top_up`, `extend_duration`, `request_withdrawal` and `renew_if_rolling` need no authorisation from anyone either. None of them calls `require_auth`, so their models take no `signers`.
- `withdraw` and `withdraw_early` do not check the sign of `amount`. A negative amount passes the balance check and raises `bonded`. `CredenceBond.Withdraw` states this: on success `bonded` becomes `bonded - amount` for every amount.
- `initialize` can be called again and replaces the admin.
- A withdrawal request made at time 0 stores 0, which still reads as "not requested" (`SecondRequestFails`).
- The doc comment on `is_rolling` says a rolling bond renews at period end "unless withdrawal was requested". `renew_if_rolling` never reads the request, so a rolling bond whose period has ended is renewed even with a request pending; with the assumed `ApplyRenewal` the request is then discarded (`RenewDiscardsPendingRequest`).
- The available-balance abort "slashed amount exceeds bonded amount" is reachable: after a negative slash, `bonded - slashed` can overflow i128 (`AvailableCheckCanOverflow`).

## Model

| member | source | states |
|---|---|---|
| Emergency.SetConfig | contracts/credence_bond/src/emergency.rs:47-66 | aborts with InvalidFeeBps exactly when the fee exceeds 10000 bps; otherwise the stored configuration is the four arguments and is valid |
| Emergency.GetConfig | contracts/credence_bond/src/emergency.rs:68-74 | returns the stored configuration; aborts with ConfigNotSet when there is none |
| Emergency.SetEnabled | contracts/credence_bond/src/emergency.rs:76-83 | aborts when no configuration exists; otherwise changes only `enabled`, keeping governance, treasury and fee, and hence validity |
| Emergency.CalculateFee | contracts/credence_bond/src/emergency.rs:85-95 | fee 0 for 0 bps; aborts exactly when `amount * bps` overflows i128; otherwise the result is `amount * bps / 10000` rounded toward zero, stated as the bracketing inequalities for each sign; for a non-negative amount and at most 10000 bps the fee lies in [0, amount], and no overflow occurs for amounts up to i128::MAX / 10000 |
| Emergency.EmptyLog | contracts/credence_bond/src/emergency.rs:109-113 | an unset counter reads as 0 and the log with no records is well formed |
| Emergency.StoreRecord | contracts/credence_bond/src/emergency.rs:97-137 | aborts exactly on u64 id overflow; otherwise the id is the old counter + 1 (1 when unset), the counter becomes it, only that key is added, it holds exactly the supplied fields, and on a well-formed log no earlier record changes |
| Emergency.LatestRecordId | contracts/credence_bond/src/emergency.rs:139-146 | on a well-formed log the result is 0 exactly when no record exists, the stored ids are exactly 1..result, and a positive result is the id of the last record written |
| Emergency.GetRecord | contracts/credence_bond/src/emergency.rs:148-154 | returns the stored record or aborts with RecordNotFound; on a well-formed log it succeeds exactly for ids 1..latest and the record carries its id |
| RollingBond.IsPeriodEnded | contracts/credence_bond/src/lib.rs:383 | (assumed behaviour, see Left out) the period has ended when `now >= start + duration`; an end past u64 saturates, so it is reached only at u64::MAX |
| RollingBond.ApplyRenewal | contracts/credence_bond/src/lib.rs:371-386 | renewal starts the new period at `now` (as the doc comment at line 371 says) and, by assumption, clears the pending request, keeping amounts, duration and flags |
| CredenceBond.Deployed | contracts/credence_bond/src/lib.rs:41-47 | a freshly deployed instance has no admin, no bond, no emergency configuration and an empty, well-formed audit log whose latest id reads as 0 |
| CredenceBond.Initialize | contracts/credence_bond/src/lib.rs:43-47 | the admin becomes the argument, with no guard against re-initialisation; nothing else changes |
| CredenceBond.CheckAdmin | contracts/credence_bond/src/lib.rs:50-58 | passes exactly when an admin is stored and equals the caller; NotInitialized before NotAdmin |
| CredenceBond.SetEmergencyConfig | contracts/credence_bond/src/lib.rs:69-87 | succeeds exactly for the stored admin, with its authorisation and a fee of at most 10000 bps; replaces only the emergency configuration and keeps the storage invariant |
| CredenceBond.SetEmergencyMode | contracts/credence_bond/src/lib.rs:94-111 | succeeds exactly for the stored admin and the configured governance, both authorised; changes only `enabled` |
| CredenceBond.EmergencyGate | contracts/credence_bond/src/lib.rs:127-148 | the pre-bond checks of an emergency withdrawal, in their order: admin, configuration present, governance, mode enabled, amount > 0, then both authorisations; reads no bond |
| CredenceBond.DeductGross | contracts/credence_bond/src/lib.rs:283-290 | subtracts the gross amount; after the available-balance check the re-check `slashed > bonded` cannot fail, and for a non-negative amount the subtraction cannot overflow |
| CredenceBond.Withdraw | contracts/credence_bond/src/lib.rs:267-296 | aborts with InsufficientBalance when `amount > bonded - slashed`; otherwise succeeds exactly when `bonded - amount` fits, lowering only `bonded` by the amount; never hits the dead re-check; keeps the balance invariant |
| CredenceBond.LockupRemaining | contracts/credence_bond/src/lib.rs:316-323 | inside the saturating lock-up the seconds left are positive and sum with `now` to its end; once the bond has started they are at most the duration |
| CredenceBond.WithdrawEarly | contracts/credence_bond/src/lib.rs:300-346 | succeeds exactly when the balance check passes, `now` is before the lock-up end, the penalty computation does not abort and the subtraction fits; PostLockup at or after the end; lowers `bonded` by the gross amount; a started zero-duration bond never reaches the penalty |
| CredenceBond.RequestWithdrawal | contracts/credence_bond/src/lib.rs:349-369 | succeeds exactly for a rolling bond with no pending request, setting only the request time to `now`; NotRolling before AlreadyRequested |
| CredenceBond.RenewIfRolling | contracts/credence_bond/src/lib.rs:372-393 | never aborts once a bond exists; returns the stored state unchanged unless the bond is rolling and its period has ended, and then restarts it at `now` with the request cleared; amounts never change |
| CredenceBond.GetIdentityState | contracts/credence_bond/src/lib.rs:258-263 | returns the stored bond, or NoBond |
| CredenceBond.GetTier | contracts/credence_bond/src/lib.rs:396-399 | the tier is the classifier applied to the stored bonded amount, or NoBond |
| CredenceBond.Slash | contracts/credence_bond/src/lib.rs:403-435 | succeeds exactly for the stored admin on an existing bond when `slashed + amount` fits in i128; the new slashed amount is `min(slashed + amount, bonded)`, `bonded` and everything else unchanged; for non-negative amounts it keeps the invariant and never lowers `slashed` |
| CredenceBond.TopUp | contracts/credence_bond/src/lib.rs:438-456 | succeeds exactly when `bonded + amount` fits in i128, changing only `bonded`; keeps the invariant for non-negative amounts |
| CredenceBond.ExtendDuration | contracts/credence_bond/src/lib.rs:459-481 | DurationOverflow when `duration + extra` overflows u64, EndTimestampOverflow when the new end does; otherwise changes only the duration, and the lock-up end never moves earlier |
| CredenceBond.CreateBond | contracts/credence_bond/src/lib.rs:225-255 | aborts exactly when `now + duration` overflows u64; otherwise stores a fresh active bond starting at `now` with nothing slashed and no request, replacing any old one; the invariant holds exactly when the amount is non-negative |
| CredenceBond.EmergencyWithdraw | contracts/credence_bond/src/lib.rs:120-205 | a failed gate aborts with the gate's error; succeeds exactly when the gate passes, a bond exists, the amount is covered by `bonded - slashed`, the fee is computable and the record id fits; then `bonded` falls by the gross amount, the next record holds gross, fee, net = gross - fee, treasury, approvers, reason and time, earlier records stay, and the fee lies in [0, amount] for a valid configuration; the `WithdrawalUnderflow`, `FeeExceedsAmount` and `SlashedExceedsBonded` aborts are unreachable, while `FeeOverflow` is reachable |
| CredenceBond.WithdrawIgnoresTiming | contracts/credence_bond/src/lib.rs:267-296 | whether `withdraw` succeeds does not depend on start, duration, pending request or notice period |
| CredenceBond.SecondRequestFails | contracts/credence_bond/src/lib.rs:356-362 | a second request fails with AlreadyRequested, unless the first was made at time 0 |
| CredenceBond.RenewIsIdempotent | contracts/credence_bond/src/lib.rs:379-386 | renewing twice at the same time gives the same state as renewing once |
| CredenceBond.NegativeTopUpBreaksInvariant | contracts/credence_bond/src/lib.rs:447-450 | a top-up of -1 on a 0/0 bond succeeds and leaves `bonded < slashed` |
| CredenceBond.RenewDiscardsPendingRequest | contracts/credence_bond/src/lib.rs:372-386 | a rolling bond past its period end with a withdrawal request pending is still renewed, restarting at `now`, and the request reads as cleared afterwards, contrary to the doc comment at line 29 |
| CredenceBond.AvailableCheckCanOverflow | contracts/credence_bond/src/lib.rs:275-278 | with bonded = i128::MAX and slashed = -1, even a withdrawal of 0 aborts with "slashed amount exceeds bonded amount" |
| CredenceBond.NegativeSlashBreaksInvariant | contracts/credence_bond/src/lib.rs:419-427 | a slash of -1 on a 0/0 bond succeeds and leaves a negative slashed amount |
| Lifecycle.Step | contracts/credence_bond/src/lib.rs:41-482 | every committed call keeps a valid emergency configuration and a well-formed audit log that extends the old one |
| Lifecycle.ApplyKeepsBondInvariant | contracts/credence_bond/src/lib.rs:225-481 | one call with a non-negative amount keeps `0 <= slashed <= bonded`, and withdrawals keep it for every amount |
| Lifecycle.RunKeepsAuditTrail | contracts/credence_bond/src/emergency.rs:130-136 | after any sequence of calls the audit log is still well formed, its counter has not gone back, and every earlier record is unchanged |
| Lifecycle.RecordReadsBackForever | contracts/credence_bond/src/emergency.rs:148-154 | a record that can be read now reads back identically after any later sequence of calls |
| Lifecycle.RunKeepsBondInvariant | contracts/credence_bond/src/lib.rs:225-481 | `0 <= slashed <= bonded` holds in every state reached through calls whose amounts are non-negative |
| Lifecycle.SlashedNeverDecreases | contracts/credence_bond/src/lib.rs:419-427 | without a new `create_bond`, and with non-negative amounts from an invariant state, the slashed amount never decreases and the identity and rolling flag never change |
| Lifecycle.CreateBondResetsSlash | contracts/credence_bond/src/lib.rs:225-251 | a single unauthorised `create_bond` on a bond with a positive slashed amount leaves nothing slashed, so `SlashedNeverDecreases` must exclude it |
| Lifecycle.DeployedStatesAreValid | contracts/credence_bond/src/lib.rs:41-482 | every state reached from a fresh deployment, with the early-exit penalty free to change between calls, has a valid emergency configuration and a well-formed audit log, and keeps `0 <= slashed <= bonded` when the amounts are non-negative |

## Left out

- Events (`tier_changed`, `penalty_applied`, `withdrawal_requested`, `bond_renewed`, `slashed`, `emergency_mode`, `emergency_withdrawal`) are not modelled. They change no stored state.
- Soroban storage is a `Contract` record. The ledger clock is a `now` parameter. `require_auth()` is membership in a `signers` set that the host accepts.
- The tier classifier (`tiered_bond`) is not part of this model. `CredenceBond.GetTier` takes it as a parameter and invents no thresholds. The model uses it nowhere else.
- Assumed: `tiered_bond::get_tier_for_amount` and `tiered_bond::emit_tier_change_if_needed` never abort for any i128 amount, negative ones included, and change no stored state. `create_bond`, `withdraw`, `withdraw_early`, `top_up` and `emergency_withdraw` call them on every bonded-amount change (lib.rs:170-179, 252-253, 283-292, 333-342, 446-452). The "succeeds exactly when" clauses of `CredenceBond.CreateBond`, `CredenceBond.Withdraw`, `CredenceBond.WithdrawEarly`, `CredenceBond.TopUp` and `CredenceBond.EmergencyWithdraw`, and the lemmas built on them (`CredenceBond.NegativeTopUpBreaksInvariant`, the `Lifecycle` lemmas), hold only under this assumption. The same goes for `early_exit_penalty::emit_penalty_event` in `withdraw_early`.
- The early-exit penalty module (`early_exit_penalty`) is not part of this model. Its configuration read and `calculate_penalty` are one function parameter. It maps (amount, seconds left, duration) to a penalty, or to None when it aborts. The penalty changes no stored state.
- CredenceBond.WithdrawEarly: states no penalty bound or formula, because the penalty computation is not part of this model.
- `set_early_exit_config`: only its admin check is modelled (`CredenceBond.CheckAdmin`), because the store it delegates to is not part of this model. Its effect is covered by giving every `Lifecycle.Call` its own penalty function, so the penalty may change between calls.
- RollingBond.IsPeriodEnded: the rolling-bond module (`rolling_bond`) is not part of this model, so `is_period_ended` is an assumption: the period ends at `start + duration`, saturating at u64::MAX.
- RollingBond.ApplyRenewal: `apply_renewal` is likewise an assumption. `lib.rs` shows only that renewal starts the new period at `now`; that it also clears the pending withdrawal request is assumed, and `CredenceBond.RenewIfRolling`, `CredenceBond.RenewIsIdempotent` and `CredenceBond.RenewDiscardsPendingRequest` inherit it.
- `get_emergency_config`, `get_latest_emergency_record_id` and `get_emergency_record` (lib.rs:208-220) only forward to the stored configuration and log. They are `Emergency.GetConfig`, `Emergency.LatestRecordId` and `Emergency.GetRecord`, applied to the `Contract` fields.
- Token transfers are not modelled. The contract only describes them in a comment.
- The test modules are not modelled.
- `Address` and `Symbol` are opaque types with equality only.
