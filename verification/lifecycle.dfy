/** Sequences of entry-point calls against one contract instance. Each call
    either commits its whole change or aborts and leaves storage as it was;
    the lemmas state what holds of every state such a sequence reaches. */
module Lifecycle {
  import opened Numeric
  import opened Types
  import opened Bond
  import opened Emergency
  import C = CredenceBond

  /** One mutating entry point with its arguments. */
  datatype Op =
    | Initialize(admin: Address)
    | SetEmergencyConfig(admin: Address, governance: Address, treasury: Address, feeBps: U32, enabled: bool)
    | SetEmergencyMode(admin: Address, governance: Address, enabled: bool)
    | EmergencyWithdraw(admin: Address, governance: Address, amount: I128, reason: Symbol)
    | CreateBond(identity: Address, amount: I128, duration: U64, isRolling: bool, noticePeriod: U64)
    | Withdraw(amount: I128)
    | WithdrawEarly(amount: I128)
    | RequestWithdrawal
    | RenewIfRolling
    | Slash(admin: Address, amount: I128)
    | TopUp(amount: I128)
    | ExtendDuration(extra: U64)

  /** A call: the entry point, the ledger time it reads, the addresses whose
      authorisation the host accepts for it, and the early-exit penalty
      computation as configured at the time of the call (its configuration
      can change between calls). */
  datatype Call = Call(op: Op, now: U64, signers: set<Address>, penalty: C.PenaltyFn)

  function Step(s: C.Contract, call: Call): (r: Result<C.Contract>)
    ensures r.Ok? && C.StoreInvariant(s) ==> C.StoreInvariant(r.value) && Extends(s.audit, r.value.audit)
  {
    var now := call.now;
    var signers := call.signers;
    match call.op
    case Initialize(admin) => Ok(C.Initialize(s, admin))
    case SetEmergencyConfig(admin, governance, treasury, feeBps, enabled) =>
      C.SetEmergencyConfig(s, admin, governance, treasury, feeBps, enabled, signers)
    case SetEmergencyMode(admin, governance, enabled) =>
      C.SetEmergencyMode(s, admin, governance, enabled, signers)
    case EmergencyWithdraw(admin, governance, amount, reason) =>
      C.EmergencyWithdraw(s, admin, governance, amount, reason, now, signers)
    case CreateBond(identity, amount, duration, isRolling, noticePeriod) =>
      C.CreateBond(s, identity, amount, duration, isRolling, noticePeriod, now)
    case Withdraw(amount) => C.Withdraw(s, amount)
    case WithdrawEarly(amount) => C.WithdrawEarly(s, amount, now, call.penalty)
    case RequestWithdrawal => C.RequestWithdrawal(s, now)
    case RenewIfRolling => C.RenewIfRolling(s, now)
    case Slash(admin, amount) => C.Slash(s, admin, amount)
    case TopUp(amount) => C.TopUp(s, amount)
    case ExtendDuration(extra) => C.ExtendDuration(s, extra)
  }

  /** Storage after a call: the committed state, or the old one on abort. */
  function Apply(s: C.Contract, call: Call): C.Contract
  {
    match Step(s, call)
    case Ok(s') => s'
    case Err(_) => s
  }

  function Run(s: C.Contract, calls: seq<Call>): C.Contract
    decreases |calls|
  {
    if |calls| == 0 then s else Run(Apply(s, calls[0]), calls[1..])
  }

  /** The bond, when there is one, satisfies 0 <= slashed <= bonded. */
  predicate BondInvariant(s: C.Contract)
  {
    s.bond.Some? ==> BalanceInvariant(s.bond.value)
  }

  /** The calls that can move the balances in the wrong direction, with a
      negative amount, are given a non-negative one. */
  predicate NonNegativeAmount(op: Op)
  {
    match op
    case CreateBond(_, amount, _, _, _) => amount >= 0
    case Slash(_, amount) => amount >= 0
    case TopUp(amount) => amount >= 0
    case _ => true
  }

  /** One call keeps the balance invariant when its amount is non-negative;
      withdrawals and emergency withdrawals keep it for every amount. */
  lemma ApplyKeepsBondInvariant(s: C.Contract, call: Call)
    requires BondInvariant(s) && NonNegativeAmount(call.op)
    ensures BondInvariant(Apply(s, call))
  {
  }

  /** Every state reached from a well-formed one keeps a valid emergency
      configuration and a well-formed audit log that extends the original:
      no record is ever changed or removed and the counter never goes back. */
  lemma {:induction false} RunKeepsAuditTrail(s: C.Contract, calls: seq<Call>)
    requires C.StoreInvariant(s)
    ensures C.StoreInvariant(Run(s, calls))
    ensures Extends(s.audit, Run(s, calls).audit)
    decreases |calls|
  {
    if |calls| > 0 {
      var s' := Apply(s, calls[0]);
      RunKeepsAuditTrail(s', calls[1..]);
      ExtendsTransitive(s.audit, s'.audit, Run(s', calls[1..]).audit);
    }
  }

  /** A record that can be read now reads back identically after any later
      sequence of calls. */
  lemma {:induction false} RecordReadsBackForever(s: C.Contract, calls: seq<Call>, id: U64)
    requires C.StoreInvariant(s)
    requires GetRecord(s.audit, id).Ok?
    ensures GetRecord(Run(s, calls).audit, id) == GetRecord(s.audit, id)
  {
    RunKeepsAuditTrail(s, calls);
  }

  /** The balance invariant holds in every state reached through calls whose
      amounts are non-negative. */
  lemma {:induction false} RunKeepsBondInvariant(s: C.Contract, calls: seq<Call>)
    requires BondInvariant(s)
    requires forall i :: 0 <= i < |calls| ==> NonNegativeAmount(calls[i].op)
    ensures BondInvariant(Run(s, calls))
    decreases |calls|
  {
    if |calls| > 0 {
      ApplyKeepsBondInvariant(s, calls[0]);
      RunKeepsBondInvariant(Apply(s, calls[0]), calls[1..]);
    }
  }

  /** Without a new `create_bond`, the bond keeps its identity and rolling
      flag and, under the balance invariant and non-negative amounts, its
      slashed amount never decreases. */
  lemma {:induction false} SlashedNeverDecreases(s: C.Contract, calls: seq<Call>)
    requires s.bond.Some? && BondInvariant(s)
    requires forall i :: 0 <= i < |calls| ==> NonNegativeAmount(calls[i].op) && !calls[i].op.CreateBond?
    ensures Run(s, calls).bond.Some?
    ensures Run(s, calls).bond.value.slashedAmount >= s.bond.value.slashedAmount
    ensures Run(s, calls).bond.value.identity == s.bond.value.identity
    ensures Run(s, calls).bond.value.isRolling == s.bond.value.isRolling
    decreases |calls|
  {
    if |calls| > 0 {
      var s' := Apply(s, calls[0]);
      ApplyKeepsBondInvariant(s, calls[0]);
      SlashedNeverDecreases(s', calls[1..]);
    }
  }

  /** `create_bond` needs no authorisation and replaces the bond with one that
      has nothing slashed, so a single call can lower the slashed amount: the
      exclusion of `create_bond` in `SlashedNeverDecreases` is needed. */
  lemma CreateBondResetsSlash(s: C.Contract, call: Call)
    requires s.bond.Some? && s.bond.value.slashedAmount > 0
    requires call.op.CreateBond? && call.op.amount >= 0 && InU64(call.now + call.op.duration)
    ensures Run(s, [call]).bond.Some?
    ensures Run(s, [call]).bond.value.slashedAmount == 0 < s.bond.value.slashedAmount
  {
  }

  /** Every state reached from a fresh deployment keeps a valid emergency
      configuration and a well-formed audit log, and, when the amounts are
      non-negative, satisfies the balance invariant. */
  lemma {:induction false} DeployedStatesAreValid(calls: seq<Call>)
    ensures C.StoreInvariant(Run(C.Deployed(), calls))
    ensures (forall i :: 0 <= i < |calls| ==> NonNegativeAmount(calls[i].op)) ==>
      BondInvariant(Run(C.Deployed(), calls))
  {
    RunKeepsAuditTrail(C.Deployed(), calls);
    if forall i :: 0 <= i < |calls| ==> NonNegativeAmount(calls[i].op) {
      RunKeepsBondInvariant(C.Deployed(), calls);
    }
  }
}
