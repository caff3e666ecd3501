/** The emergency-withdrawal subsystem: its configuration, the fee it charges
    and the append-only audit log of completed emergency withdrawals. */
module Emergency {
  import opened Numeric
  import opened Types

  /** Largest accepted emergency fee: 10000 basis points, i.e. 100%. */
  const MAX_FEE_BPS: int := 10_000

  /** Basis points per unit. */
  const BPS_DENOMINATOR: int := 10_000

  datatype EmergencyConfig = EmergencyConfig(
    governance: Address,
    treasury: Address,
    feeBps: U32,
    enabled: bool)

  /** A configuration that `SetConfig` can have produced. */
  predicate ValidConfig(c: EmergencyConfig)
  {
    c.feeBps <= MAX_FEE_BPS
  }

  /** Snapshot of one completed emergency withdrawal. */
  datatype Record = Record(
    id: U64,
    identity: Address,
    grossAmount: I128,
    feeAmount: I128,
    netAmount: I128,
    treasury: Address,
    approvedAdmin: Address,
    approvedGovernance: Address,
    reason: Symbol,
    timestamp: U64)

  /** The record counter (0 while it is unset) and the records stored under
      their ids. */
  datatype AuditLog = AuditLog(latest: U64, records: map<nat, Record>)

  /** The log holds exactly the ids 1..latest, each record under its own id. */
  ghost predicate WellFormed(log: AuditLog)
  {
    && (forall id :: id in log.records <==> 1 <= id <= log.latest)
    && (forall id :: id in log.records ==> log.records[id].id == id)
  }

  /** `after` keeps every record of `before` unchanged and its counter has not
      gone back. */
  ghost predicate Extends(before: AuditLog, after: AuditLog)
  {
    && before.latest <= after.latest
    && (forall id :: id in before.records ==> id in after.records && after.records[id] == before.records[id])
  }

  lemma ExtendsTransitive(a: AuditLog, b: AuditLog, c: AuditLog)
    requires Extends(a, b) && Extends(b, c)
    ensures Extends(a, c)
  {
  }

  /** Stores a configuration; a fee above 100% is rejected. */
  function SetConfig(governance: Address, treasury: Address, feeBps: U32, enabled: bool): (r: Result<EmergencyConfig>)
    ensures r.Ok? <==> feeBps <= MAX_FEE_BPS
    ensures r.Err? ==> r.error == InvalidFeeBps
    ensures r.Ok? ==> r.value == EmergencyConfig(governance, treasury, feeBps, enabled)
    ensures r.Ok? ==> ValidConfig(r.value)
  {
    if feeBps > MAX_FEE_BPS then Err(InvalidFeeBps)
    else Ok(EmergencyConfig(governance, treasury, feeBps, enabled))
  }

  /** Reads the stored configuration; aborts when there is none. */
  function GetConfig(stored: Option<EmergencyConfig>): (r: Result<EmergencyConfig>)
    ensures r.Ok? <==> stored.Some?
    ensures r.Ok? ==> r.value == stored.value
    ensures r.Err? ==> r.error == ConfigNotSet
  {
    match stored
    case None => Err(ConfigNotSet)
    case Some(c) => Ok(c)
  }

  /** Switches emergency mode, keeping governance, treasury and fee. */
  function SetEnabled(stored: Option<EmergencyConfig>, enabled: bool): (r: Result<EmergencyConfig>)
    ensures r.Ok? <==> stored.Some?
    ensures r.Err? ==> r.error == ConfigNotSet
    ensures r.Ok? ==> r.value.enabled == enabled
    ensures r.Ok? ==>
      && r.value.governance == stored.value.governance
      && r.value.treasury == stored.value.treasury
      && r.value.feeBps == stored.value.feeBps
    ensures r.Ok? && ValidConfig(stored.value) ==> ValidConfig(r.value)
  {
    match stored
    case None => Err(ConfigNotSet)
    case Some(c) => Ok(c.(enabled := enabled))
  }

  /** The emergency fee `amount * feeBps / 10000`, with the multiplication
      checked against i128 and the division rounding toward zero. The two
      bracketing inequalities pin the result down as that rounded quotient.
      For a non-negative amount and a fee of at most 100% the fee lies in
      [0, amount], so `amount - fee` is a net amount in [0, amount]; and the
      multiplication cannot overflow for amounts up to i128::MAX / 10000. */
  function CalculateFee(amount: I128, feeBps: U32): (r: Result<I128>)
    ensures feeBps == 0 ==> r == Ok(0)
    ensures feeBps > 0 ==> (r.Err? <==> !InI128(amount * feeBps))
    ensures r.Err? ==> r.error == FeeOverflow
    ensures r.Ok? && amount >= 0 ==>
      r.value * BPS_DENOMINATOR <= amount * feeBps < r.value * BPS_DENOMINATOR + BPS_DENOMINATOR
    ensures r.Ok? && amount < 0 ==>
      r.value * BPS_DENOMINATOR - BPS_DENOMINATOR < amount * feeBps <= r.value * BPS_DENOMINATOR
    ensures r.Ok? && amount >= 0 && feeBps <= MAX_FEE_BPS ==> 0 <= r.value <= amount
    ensures 0 <= amount <= I128_MAX / MAX_FEE_BPS && feeBps <= MAX_FEE_BPS ==> r.Ok?
  {
    if feeBps == 0 then Ok(0)
    else
      var product := amount * feeBps;
      assert amount >= 0 && feeBps <= MAX_FEE_BPS ==> 0 <= product <= amount * MAX_FEE_BPS by {
        if amount >= 0 && feeBps <= MAX_FEE_BPS {
          MulMonotone(amount, 0, feeBps);
          MulMonotone(amount, feeBps, MAX_FEE_BPS);
        }
      }
      if !InI128(product) then Err(FeeOverflow)
      else Ok(TruncDiv(product, BPS_DENOMINATOR))
  }

  lemma MulMonotone(a: int, x: int, y: int)
    requires a >= 0 && x <= y
    ensures a * x <= a * y
  {
  }

  /** The empty log: counter unset, no records. */
  function EmptyLog(): (log: AuditLog)
    ensures WellFormed(log)
    ensures log.records == map[]
  {
    AuditLog(0, map[])
  }

  /** Appends a record under the next id (counter + 1, or 1 when unset),
      advances the counter, and returns the new log with that id. */
  function StoreRecord(
    log: AuditLog,
    identity: Address,
    grossAmount: I128,
    feeAmount: I128,
    netAmount: I128,
    treasury: Address,
    approvedAdmin: Address,
    approvedGovernance: Address,
    reason: Symbol,
    now: U64): (r: Result<(AuditLog, U64)>)
    ensures r.Ok? <==> log.latest < U64_MAX
    ensures r.Err? ==> r.error == RecordIdOverflow
    ensures r.Ok? ==> r.value.1 == log.latest + 1 && r.value.0.latest == r.value.1
    ensures r.Ok? ==> var id := r.value.1;
      && id in r.value.0.records
      && r.value.0.records[id] == Record(id, identity, grossAmount, feeAmount, netAmount,
                                         treasury, approvedAdmin, approvedGovernance, reason, now)
    ensures r.Ok? ==> r.value.0.records.Keys == log.records.Keys + {r.value.1}
    ensures r.Ok? && WellFormed(log) ==>
      WellFormed(r.value.0) && r.value.1 !in log.records && Extends(log, r.value.0)
  {
    if !InU64(log.latest + 1) then Err(RecordIdOverflow)
    else
      var id: U64 := log.latest + 1;
      var record := Record(id, identity, grossAmount, feeAmount, netAmount,
                           treasury, approvedAdmin, approvedGovernance, reason, now);
      Ok((AuditLog(id, log.records[id := record]), id))
  }

  /** The counter: 0 before any record exists, and otherwise the id of the
      last record written, so the stored ids are exactly 1..latest. */
  function LatestRecordId(log: AuditLog): (r: U64)
    ensures WellFormed(log) ==> (r == 0 <==> log.records == map[])
    ensures WellFormed(log) ==> forall id :: id in log.records <==> 1 <= id <= r
    ensures WellFormed(log) && r > 0 ==> r in log.records && log.records[r].id == r
  {
    assert WellFormed(log) && log.latest == 0 ==> log.records.Keys == {};
    assert WellFormed(log) && log.latest > 0 ==> log.latest in log.records;
    log.latest
  }

  /** Looks up a record; aborts for an id with no record. */
  function GetRecord(log: AuditLog, id: U64): (r: Result<Record>)
    ensures r.Ok? <==> id in log.records
    ensures r.Ok? ==> r.value == log.records[id]
    ensures r.Err? ==> r.error == RecordNotFound
    ensures WellFormed(log) ==> (r.Ok? <==> 1 <= id <= log.latest)
    ensures WellFormed(log) && r.Ok? ==> r.value.id == id
  {
    if id in log.records then Ok(log.records[id]) else Err(RecordNotFound)
  }
}
