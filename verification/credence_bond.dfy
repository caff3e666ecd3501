/** The `CredenceBond` contract: every entry point is a transition from the
    stored state (plus the call's arguments, the ledger time `now` read once,
    and the set of addresses whose authorisation the host accepted) to either
    the new stored state or an abort that leaves storage untouched. */
module CredenceBond {
  import opened Numeric
  import opened Types
  import opened Bond
  import opened RollingBond
  import opened Emergency

  /** The instance storage of one deployment. */
  datatype Contract = Contract(
    admin: Option<Address>,
    bond: Option<IdentityBond>,
    emergency: Option<EmergencyConfig>,
    audit: AuditLog)

  /** Facts every entry point keeps about the configuration and the audit log. */
  ghost predicate StoreInvariant(s: Contract)
  {
    && (s.emergency.Some? ==> ValidConfig(s.emergency.value))
    && WellFormed(s.audit)
  }

  /** The early-exit module (configuration read plus `calculate_penalty`) as
      seen from `withdraw_early`: given the gross amount, the seconds left and
      the bond duration, it yields the penalty, or None when it aborts. */
  type PenaltyFn = (I128, U64, U64) -> Option<I128>

  /** The tier classifier `get_tier_for_amount`. */
  type TierFn = I128 -> BondTier

  /** Storage of a freshly deployed instance. */
  function Deployed(): (s: Contract)
    ensures StoreInvariant(s)
    ensures s.admin.None? && s.bond.None? && s.emergency.None?
    ensures LatestRecordId(s.audit) == 0
  {
    Contract(None, None, None, EmptyLog())
  }

  /** Stores the admin. There is no guard: a later call replaces it. */
  function Initialize(s: Contract, admin: Address): (r: Contract)
    ensures r.admin == Some(admin)
    ensures r.bond == s.bond && r.emergency == s.emergency && r.audit == s.audit
  {
    s.(admin := Some(admin))
  }

  /** The admin check shared by the admin-only entry points: an admin must be
      stored and the caller must be it. */
  function CheckAdmin(storedAdmin: Option<Address>, caller: Address): (r: Result<()>)
    ensures r.Ok? <==> storedAdmin == Some(caller)
    ensures storedAdmin.None? ==> r == Err(NotInitialized)
    ensures storedAdmin.Some? && storedAdmin.value != caller ==> r == Err(NotAdmin)
  {
    match storedAdmin
    case None => Err(NotInitialized)
    case Some(a) => if caller != a then Err(NotAdmin) else Ok(())
  }

  /** Admin-authorised replacement of the emergency configuration. */
  function SetEmergencyConfig(
    s: Contract, admin: Address, governance: Address, treasury: Address,
    feeBps: U32, enabled: bool, signers: set<Address>): (r: Result<Contract>)
    ensures r.Ok? <==> s.admin == Some(admin) && admin in signers && feeBps <= MAX_FEE_BPS
    ensures s.admin == Some(admin) && admin !in signers ==> r == Err(MissingAuth)
    ensures s.admin == Some(admin) && admin in signers && feeBps > MAX_FEE_BPS ==> r == Err(InvalidFeeBps)
    ensures r.Ok? ==> r.value.emergency == Some(EmergencyConfig(governance, treasury, feeBps, enabled))
    ensures r.Ok? ==> r.value.admin == s.admin && r.value.bond == s.bond && r.value.audit == s.audit
    ensures r.Ok? && StoreInvariant(s) ==> StoreInvariant(r.value)
  {
    match CheckAdmin(s.admin, admin)
    case Err(e) => Err(e)
    case Ok(_) =>
      if admin !in signers then Err(MissingAuth)
      else
        match SetConfig(governance, treasury, feeBps, enabled)
        case Err(e) => Err(e)
        case Ok(cfg) => Ok(s.(emergency := Some(cfg)))
  }

  /** Turns emergency mode on or off with both admin and governance approval. */
  function SetEmergencyMode(
    s: Contract, admin: Address, governance: Address, enabled: bool,
    signers: set<Address>): (r: Result<Contract>)
    ensures r.Ok? <==>
      && s.admin == Some(admin)
      && s.emergency.Some?
      && governance == s.emergency.value.governance
      && admin in signers && governance in signers
    ensures s.admin == Some(admin) && s.emergency.None? ==> r == Err(ConfigNotSet)
    ensures s.admin == Some(admin) && s.emergency.Some? && governance != s.emergency.value.governance
      ==> r == Err(NotGovernance)
    ensures r.Ok? ==> r.value.emergency == Some(s.emergency.value.(enabled := enabled))
    ensures r.Ok? ==> r.value.admin == s.admin && r.value.bond == s.bond && r.value.audit == s.audit
    ensures r.Ok? && StoreInvariant(s) ==> StoreInvariant(r.value)
  {
    match CheckAdmin(s.admin, admin)
    case Err(e) => Err(e)
    case Ok(_) =>
      match GetConfig(s.emergency)
      case Err(e) => Err(e)
      case Ok(cfg) =>
        if governance != cfg.governance then Err(NotGovernance)
        else if admin !in signers || governance !in signers then Err(MissingAuth)
        else
          match SetEnabled(s.emergency, enabled)
          case Err(e) => Err(e)
          case Ok(cfg') => Ok(s.(emergency := Some(cfg')))
  }

  /** The checks `emergency_withdraw` makes before it reads the bond, in their
      order: admin, governance, mode, amount sign, then both authorisations.
      Only the stored admin and configuration are consulted. */
  function EmergencyGate(
    storedAdmin: Option<Address>, stored: Option<EmergencyConfig>,
    admin: Address, governance: Address, amount: I128, signers: set<Address>): (r: Result<EmergencyConfig>)
    ensures r.Ok? <==>
      && storedAdmin == Some(admin)
      && stored.Some? && governance == stored.value.governance
      && stored.value.enabled
      && amount > 0
      && admin in signers && governance in signers
    ensures r.Ok? ==> r.value == stored.value
    ensures storedAdmin.None? ==> r == Err(NotInitialized)
    ensures storedAdmin.Some? && storedAdmin.value != admin ==> r == Err(NotAdmin)
    ensures storedAdmin == Some(admin) && stored.None? ==> r == Err(ConfigNotSet)
    ensures storedAdmin == Some(admin) && stored.Some? && governance != stored.value.governance
      ==> r == Err(NotGovernance)
    ensures (storedAdmin == Some(admin) && stored.Some? && governance == stored.value.governance
             && !stored.value.enabled) ==> r == Err(EmergencyDisabled)
    ensures (storedAdmin == Some(admin) && stored.Some? && governance == stored.value.governance
             && stored.value.enabled && amount <= 0) ==> r == Err(NonPositiveAmount)
  {
    match CheckAdmin(storedAdmin, admin)
    case Err(e) => Err(e)
    case Ok(_) =>
      match GetConfig(stored)
      case Err(e) => Err(e)
      case Ok(cfg) =>
        if governance != cfg.governance then Err(NotGovernance)
        else if !cfg.enabled then Err(EmergencyDisabled)
        else if amount <= 0 then Err(NonPositiveAmount)
        else if admin !in signers || governance !in signers then Err(MissingAuth)
        else Ok(cfg)
  }

  /** The subtraction and re-check shared by the three withdrawal paths. Once
      `amount` has passed the available-balance check, the re-check cannot
      fail, and for a non-negative amount neither can the subtraction. */
  function DeductGross(b: IdentityBond, amount: I128): (r: Result<IdentityBond>)
    ensures r.Ok? ==> InI128(b.bondedAmount - amount) && r.value == b.(bondedAmount := b.bondedAmount - amount)
    ensures r.Ok? ==> r.value.slashedAmount <= r.value.bondedAmount
    ensures amount <= Available(b) ==>
      (r.Ok? <==> InI128(b.bondedAmount - amount)) && r != Err(SlashedExceedsBonded)
    ensures 0 <= amount <= Available(b) ==> r.Ok?
  {
    if !InI128(b.bondedAmount - amount) then Err(WithdrawalUnderflow)
    else
      var b' := b.(bondedAmount := b.bondedAmount - amount);
      if b'.slashedAmount > b'.bondedAmount then Err(SlashedExceedsBonded)
      else Ok(b')
  }

  /** Penalty-free withdrawal. Only the available balance `bonded - slashed`
      is checked: neither the lock-up nor a rolling bond's notice period is. */
  function Withdraw(s: Contract, amount: I128): (r: Result<Contract>)
    ensures s.bond.None? ==> r == Err(NoBond)
    ensures s.bond.Some? ==> var b := s.bond.value;
      (r.Ok? <==>
        && InI128(Available(b))
        && amount <= Available(b)
        && InI128(b.bondedAmount - amount))
    ensures s.bond.Some? && InI128(Available(s.bond.value)) && amount > Available(s.bond.value) ==>
      r == Err(InsufficientBalance)
    ensures r.Ok? ==>
      r.value == s.(bond := Some(s.bond.value.(bondedAmount := s.bond.value.bondedAmount - amount)))
    ensures r != Err(SlashedExceedsBonded)
    ensures s.bond.Some? && BalanceInvariant(s.bond.value) && 0 <= amount <= Available(s.bond.value) ==>
      r.Ok?
    ensures r.Ok? && BalanceInvariant(s.bond.value) ==> BalanceInvariant(r.value.bond.value)
  {
    match s.bond
    case None => Err(NoBond)
    case Some(b) =>
      var available := Available(b);
      if !InI128(available) then Err(AvailableOverflow)
      else if amount > available then Err(InsufficientBalance)
      else
        match DeductGross(b, amount)
        case Err(e) => Err(e)
        case Ok(b') => Ok(s.(bond := Some(b')))
  }

  /** Seconds left before the (saturating) lock-up end, or None once `now`
      has reached it. When the bond has started, the seconds left are
      positive and at most the bond duration, so a penalty computation is
      never handed a zero duration. */
  function LockupRemaining(b: IdentityBond, now: U64): (r: Option<U64>)
    ensures r.Some? <==> now < LockupEnd(b)
    ensures r.Some? ==> r.value > 0 && now + r.value == LockupEnd(b)
    ensures r.Some? && now >= b.bondStart ==> 0 < r.value <= b.bondDuration
  {
    var end := LockupEnd(b);
    if now >= end then None else Some(SaturatingSub(end, now))
  }

  /** Withdrawal before the lock-up ends. The penalty is computed (and may
      abort) but the bond falls by the gross amount. */
  function WithdrawEarly(s: Contract, amount: I128, now: U64, penalty: PenaltyFn): (r: Result<Contract>)
    ensures s.bond.None? ==> r == Err(NoBond)
    ensures s.bond.Some? ==> var b := s.bond.value;
      (r.Ok? <==>
        && InI128(Available(b))
        && amount <= Available(b)
        && now < LockupEnd(b)
        && penalty(amount, LockupEnd(b) - now, b.bondDuration).Some?
        && InI128(b.bondedAmount - amount))
    ensures s.bond.Some? && InI128(Available(s.bond.value)) && amount > Available(s.bond.value) ==>
      r == Err(InsufficientBalance)
    ensures (s.bond.Some? && InI128(Available(s.bond.value)) && amount <= Available(s.bond.value)
             && now >= LockupEnd(s.bond.value)) ==> r == Err(PostLockup)
    ensures r.Ok? ==>
      r.value == s.(bond := Some(s.bond.value.(bondedAmount := s.bond.value.bondedAmount - amount)))
    ensures r != Err(SlashedExceedsBonded)
    ensures s.bond.Some? && s.bond.value.bondDuration == 0 && now >= s.bond.value.bondStart ==>
      r.Err? && r.error != PenaltyAborted
    ensures r.Ok? && BalanceInvariant(s.bond.value) ==> BalanceInvariant(r.value.bond.value)
  {
    match s.bond
    case None => Err(NoBond)
    case Some(b) =>
      var available := Available(b);
      if !InI128(available) then Err(AvailableOverflow)
      else if amount > available then Err(InsufficientBalance)
      else
        match LockupRemaining(b, now)
        case None => Err(PostLockup)
        case Some(remaining) =>
          if penalty(amount, remaining, b.bondDuration).None? then Err(PenaltyAborted)
          else
            match DeductGross(b, amount)
            case Err(e) => Err(e)
            case Ok(b') => Ok(s.(bond := Some(b')))
  }

  /** Records a withdrawal request on a rolling bond. A request at time 0
      stores 0, which still reads as "not requested". */
  function RequestWithdrawal(s: Contract, now: U64): (r: Result<Contract>)
    ensures s.bond.None? ==> r == Err(NoBond)
    ensures r.Ok? <==> s.bond.Some? && s.bond.value.isRolling && s.bond.value.withdrawalRequestedAt == 0
    ensures s.bond.Some? && !s.bond.value.isRolling ==> r == Err(NotRolling)
    ensures s.bond.Some? && s.bond.value.isRolling && s.bond.value.withdrawalRequestedAt != 0
      ==> r == Err(AlreadyRequested)
    ensures r.Ok? ==> r.value == s.(bond := Some(s.bond.value.(withdrawalRequestedAt := now)))
  {
    match s.bond
    case None => Err(NoBond)
    case Some(b) =>
      if !b.isRolling then Err(NotRolling)
      else if b.withdrawalRequestedAt != 0 then Err(AlreadyRequested)
      else Ok(s.(bond := Some(b.(withdrawalRequestedAt := now))))
  }

  /** Renews a rolling bond whose period has ended; otherwise the stored state
      is returned as it is. Never aborts once a bond exists. */
  function RenewIfRolling(s: Contract, now: U64): (r: Result<Contract>)
    ensures r.Ok? <==> s.bond.Some?
    ensures s.bond.None? ==> r == Err(NoBond)
    ensures s.bond.Some? && (!s.bond.value.isRolling || now < LockupEnd(s.bond.value)) ==> r == Ok(s)
    ensures s.bond.Some? && s.bond.value.isRolling && now >= LockupEnd(s.bond.value) ==>
      r == Ok(s.(bond := Some(s.bond.value.(bondStart := now, withdrawalRequestedAt := 0))))
    ensures r.Ok? ==>
      && r.value.bond.Some?
      && r.value.bond.value.bondedAmount == s.bond.value.bondedAmount
      && r.value.bond.value.slashedAmount == s.bond.value.slashedAmount
  {
    match s.bond
    case None => Err(NoBond)
    case Some(b) =>
      if !b.isRolling then Ok(s)
      else if !IsPeriodEnded(now, b.bondStart, b.bondDuration) then Ok(s)
      else Ok(s.(bond := Some(ApplyRenewal(b, now))))
  }

  /** The bond as stored. */
  function GetIdentityState(s: Contract): (r: Result<IdentityBond>)
    ensures r.Ok? <==> s.bond.Some?
    ensures r.Ok? ==> r.value == s.bond.value
    ensures r.Err? ==> r.error == NoBond
  {
    match s.bond
    case None => Err(NoBond)
    case Some(b) => Ok(b)
  }

  /** The tier of the currently bonded amount. */
  function GetTier(s: Contract, tierOf: TierFn): (r: Result<BondTier>)
    ensures r.Ok? <==> s.bond.Some?
    ensures r.Ok? ==> r.value == tierOf(s.bond.value.bondedAmount)
    ensures r.Err? ==> r.error == NoBond
  {
    match GetIdentityState(s)
    case Err(e) => Err(e)
    case Ok(b) => Ok(tierOf(b.bondedAmount))
  }

  /** Admin slashing: the slashed amount grows by `amount`, capped at the
      bonded amount. There is no sign check on `amount`. */
  function Slash(s: Contract, admin: Address, amount: I128): (r: Result<Contract>)
    ensures r.Ok? <==>
      s.admin == Some(admin) && s.bond.Some? && InI128(s.bond.value.slashedAmount + amount)
    ensures s.admin == Some(admin) && s.bond.None? ==> r == Err(NoBond)
    ensures s.admin == Some(admin) && s.bond.Some? && !InI128(s.bond.value.slashedAmount + amount)
      ==> r == Err(SlashOverflow)
    ensures r.Ok? ==> r.value.bond.Some? && var b := s.bond.value; var b' := r.value.bond.value;
      && r.value == s.(bond := Some(b.(slashedAmount := b'.slashedAmount)))
      && b'.slashedAmount <= b.bondedAmount
      && b'.slashedAmount <= b.slashedAmount + amount
      && (b'.slashedAmount == b.bondedAmount || b'.slashedAmount == b.slashedAmount + amount)
    ensures r.Ok? && amount >= 0 && BalanceInvariant(s.bond.value) ==>
      BalanceInvariant(r.value.bond.value)
      && r.value.bond.value.slashedAmount >= s.bond.value.slashedAmount
  {
    match CheckAdmin(s.admin, admin)
    case Err(e) => Err(e)
    case Ok(_) =>
      match s.bond
      case None => Err(NoBond)
      case Some(b) =>
        var newSlashed := b.slashedAmount + amount;
        if !InI128(newSlashed) then Err(SlashOverflow)
        else
          var capped := if newSlashed > b.bondedAmount then b.bondedAmount else newSlashed;
          Ok(s.(bond := Some(b.(slashedAmount := capped))))
  }

  /** Adds to the bonded amount with an overflow check. There is no sign check
      on `amount`. */
  function TopUp(s: Contract, amount: I128): (r: Result<Contract>)
    ensures r.Ok? <==> s.bond.Some? && InI128(s.bond.value.bondedAmount + amount)
    ensures s.bond.Some? && !InI128(s.bond.value.bondedAmount + amount) ==> r == Err(TopUpOverflow)
    ensures r.Ok? ==>
      r.value == s.(bond := Some(s.bond.value.(bondedAmount := s.bond.value.bondedAmount + amount)))
    ensures r.Ok? && amount >= 0 && BalanceInvariant(s.bond.value) ==> BalanceInvariant(r.value.bond.value)
  {
    match s.bond
    case None => Err(NoBond)
    case Some(b) =>
      if !InI128(b.bondedAmount + amount) then Err(TopUpOverflow)
      else Ok(s.(bond := Some(b.(bondedAmount := b.bondedAmount + amount))))
  }

  /** Lengthens the lock-up; both the new duration and the new end must fit
      in u64. The lock-up end never moves earlier. */
  function ExtendDuration(s: Contract, extra: U64): (r: Result<Contract>)
    ensures r.Ok? <==>
      && s.bond.Some?
      && InU64(s.bond.value.bondDuration + extra)
      && InU64(s.bond.value.bondStart + s.bond.value.bondDuration + extra)
    ensures s.bond.Some? && !InU64(s.bond.value.bondDuration + extra) ==> r == Err(DurationOverflow)
    ensures (s.bond.Some? && InU64(s.bond.value.bondDuration + extra)
             && !InU64(s.bond.value.bondStart + s.bond.value.bondDuration + extra)) ==> r == Err(EndTimestampOverflow)
    ensures r.Ok? ==>
      r.value == s.(bond := Some(s.bond.value.(bondDuration := s.bond.value.bondDuration + extra)))
    ensures r.Ok? ==>
      && LockupEnd(r.value.bond.value) == s.bond.value.bondStart + s.bond.value.bondDuration + extra
      && LockupEnd(r.value.bond.value) >= LockupEnd(s.bond.value)
  {
    match s.bond
    case None => Err(NoBond)
    case Some(b) =>
      if !InU64(b.bondDuration + extra) then Err(DurationOverflow)
      else
        var duration: U64 := b.bondDuration + extra;
        if !InU64(b.bondStart + duration) then Err(EndTimestampOverflow)
        else Ok(s.(bond := Some(b.(bondDuration := duration))))
  }

  /** Creates the bond, replacing any stored one, starting at `now`. Only the
      lock-up end is checked; the amount may have any sign. */
  function CreateBond(
    s: Contract, identity: Address, amount: I128, duration: U64,
    isRolling: bool, noticePeriod: U64, now: U64): (r: Result<Contract>)
    ensures r.Ok? <==> InU64(now + duration)
    ensures r.Err? ==> r.error == EndTimestampOverflow
    ensures r.Ok? ==> r.value.admin == s.admin && r.value.emergency == s.emergency && r.value.audit == s.audit
    ensures r.Ok? ==> r.value.bond.Some? && var b := r.value.bond.value;
      && b.identity == identity && b.bondedAmount == amount && b.slashedAmount == 0
      && b.bondStart == now && b.bondDuration == duration && LockupEnd(b) == now + duration
      && b.active && b.isRolling == isRolling
      && b.withdrawalRequestedAt == 0 && b.noticePeriodDuration == noticePeriod
    ensures r.Ok? ==> (BalanceInvariant(r.value.bond.value) <==> amount >= 0)
  {
    if !InU64(now + duration) then Err(EndTimestampOverflow)
    else Ok(s.(bond := Some(IdentityBond(identity, amount, now, duration, 0, true, isRolling, 0, noticePeriod))))
  }

  /** Crisis withdrawal approved by admin and governance. The bond falls by
      the gross amount; the fee is carved out of it and the whole execution is
      appended to the audit log under the next id. */
  function EmergencyWithdraw(
    s: Contract, admin: Address, governance: Address, amount: I128, reason: Symbol,
    now: U64, signers: set<Address>): (r: Result<Contract>)
    ensures EmergencyGate(s.admin, s.emergency, admin, governance, amount, signers).Err? ==>
      r == Err(EmergencyGate(s.admin, s.emergency, admin, governance, amount, signers).error)
    ensures EmergencyGate(s.admin, s.emergency, admin, governance, amount, signers).Ok? ==>
      (s.bond.None? ==> r == Err(NoBond))
    ensures (EmergencyGate(s.admin, s.emergency, admin, governance, amount, signers).Ok? && s.bond.Some?
             && InI128(Available(s.bond.value)) && amount > Available(s.bond.value)) ==>
      r == Err(InsufficientBalance)
    ensures r.Ok? <==>
      && EmergencyGate(s.admin, s.emergency, admin, governance, amount, signers).Ok?
      && s.bond.Some?
      && InI128(Available(s.bond.value))
      && amount <= Available(s.bond.value)
      && CalculateFee(amount, s.emergency.value.feeBps).Ok?
      && s.audit.latest < U64_MAX
    ensures r != Err(SlashedExceedsBonded) && r != Err(WithdrawalUnderflow) && r != Err(FeeExceedsAmount)
    ensures r.Ok? ==>
      var b := s.bond.value;
      var cfg := s.emergency.value;
      var fee := CalculateFee(amount, cfg.feeBps).value;
      var id := s.audit.latest + 1;
      && r.value.admin == s.admin
      && r.value.emergency == s.emergency
      && r.value.bond == Some(b.(bondedAmount := b.bondedAmount - amount))
      && r.value.audit.latest == id
      && GetRecord(r.value.audit, id)
         == Ok(Record(id, b.identity, amount, fee, amount - fee, cfg.treasury, admin, governance, reason, now))
      && (ValidConfig(cfg) ==> 0 <= fee <= amount)
    ensures r.Ok? && StoreInvariant(s) ==> StoreInvariant(r.value) && Extends(s.audit, r.value.audit)
    ensures r.Ok? && BalanceInvariant(s.bond.value) ==> BalanceInvariant(r.value.bond.value)
  {
    match EmergencyGate(s.admin, s.emergency, admin, governance, amount, signers)
    case Err(e) => Err(e)
    case Ok(cfg) =>
      match s.bond
      case None => Err(NoBond)
      case Some(b) =>
        var available := Available(b);
        if !InI128(available) then Err(AvailableOverflow)
        else if amount > available then Err(InsufficientBalance)
        else
          match CalculateFee(amount, cfg.feeBps)
          case Err(e) => Err(e)
          case Ok(fee) =>
            if !InI128(amount - fee) then Err(FeeExceedsAmount)
            else
              match DeductGross(b, amount)
              case Err(e) => Err(e)
              case Ok(b') =>
                match StoreRecord(s.audit, b'.identity, amount, fee, amount - fee,
                                  cfg.treasury, admin, governance, reason, now)
                case Err(e) => Err(e)
                case Ok(stored) => Ok(s.(bond := Some(b'), audit := stored.0))
  }

  /** `withdraw` looks at no timing field: changing the start, duration,
      pending request or notice period never changes whether it succeeds. */
  lemma WithdrawIgnoresTiming(s: Contract, amount: I128, start: U64, duration: U64, requestedAt: U64, notice: U64)
    requires s.bond.Some?
    ensures var moved := s.bond.value.(bondStart := start, bondDuration := duration,
                                       withdrawalRequestedAt := requestedAt, noticePeriodDuration := notice);
      Withdraw(s.(bond := Some(moved)), amount).Ok? <==> Withdraw(s, amount).Ok?
  {
  }

  /** A second withdrawal request fails, unless the first was made at time 0
      and so left the "not requested" value in place. */
  lemma SecondRequestFails(s: Contract, first: U64, second: U64)
    requires RequestWithdrawal(s, first).Ok?
    ensures first != 0 ==> RequestWithdrawal(RequestWithdrawal(s, first).value, second) == Err(AlreadyRequested)
    ensures first == 0 ==> RequestWithdrawal(RequestWithdrawal(s, first).value, second).Ok?
  {
  }

  /** Renewing again without time advancing changes nothing. */
  lemma RenewIsIdempotent(s: Contract, now: U64)
    requires s.bond.Some?
    ensures RenewIfRolling(RenewIfRolling(s, now).value, now) == RenewIfRolling(s, now)
  {
  }

  /** A negative top-up can push the bonded amount below the slashed amount. */
  lemma NegativeTopUpBreaksInvariant(s: Contract)
    requires s.bond.Some? && s.bond.value.bondedAmount == 0 && s.bond.value.slashedAmount == 0
    ensures TopUp(s, -1).Ok? && !BalanceInvariant(TopUp(s, -1).value.bond.value)
  {
  }

  /** A rolling bond whose period has ended is renewed even when a withdrawal
      was requested, although the field's doc comment says such a bond renews
      "unless withdrawal was requested": `renew_if_rolling` never reads the
      request. That the renewal then discards the request follows from the
      assumed `ApplyRenewal`. */
  lemma RenewDiscardsPendingRequest(s: Contract, now: U64)
    requires s.bond.Some? && s.bond.value.isRolling && s.bond.value.withdrawalRequestedAt != 0
    requires now >= LockupEnd(s.bond.value)
    ensures RenewIfRolling(s, now).Ok?
    ensures RenewIfRolling(s, now).value.bond.value.withdrawalRequestedAt == 0
    ensures RenewIfRolling(s, now).value.bond.value.bondStart == now
  {
  }

  /** The "slashed amount exceeds bonded amount" abort of the available
      balance is reachable: after a negative slash, `bonded - slashed`
      overflows i128 even for a withdrawal of 0. */
  lemma AvailableCheckCanOverflow(s: Contract)
    requires s.bond.Some? && s.bond.value.bondedAmount == I128_MAX && s.bond.value.slashedAmount == -1
    ensures Withdraw(s, 0) == Err(AvailableOverflow)
  {
  }

  /** A negative slash can make the slashed amount negative. */
  lemma NegativeSlashBreaksInvariant(s: Contract, admin: Address)
    requires s.admin == Some(admin)
    requires s.bond.Some? && s.bond.value.bondedAmount == 0 && s.bond.value.slashedAmount == 0
    ensures Slash(s, admin, -1).Ok? && Slash(s, admin, -1).value.bond.value.slashedAmount == -1
  {
  }
}
