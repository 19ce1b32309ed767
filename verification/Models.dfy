/** The domain rows, the derived status of a key, and the arithmetic of a renewal. */
module Models {
  import opened Wrappers
  import opened Calendar

  type Id = nat

  const BYTES_PER_GB := 1_000_000_000
  const MIN_PLAN_GB := 200.0
  const MIN_PLAN_DAYS := 30
  const BANDWIDTH_DISABLE_MARGIN_BYTES := 2 * BYTES_PER_GB
  const RUNNING_LOW_REMAINING_BYTES := 3 * BYTES_PER_GB
  const RUNNING_LOW_DAYS_LEFT := 2

  datatype KeyStatus = Active | Expired | LimitExceeded | Disabled

  /** A keys row. `access` stands for the connection columns Outline owns (URL, port, method, password). */
  datatype Key = Key(
    serverID: Id, outlineID: string, name: string, access: string,
    usedBytes: int, limitBytes: Option<int>, endDate: Option<Time>, priceMmk: Option<int>,
    enabled: bool, status: KeyStatus, userID: Option<Id>, token: string, autoRenew: bool)

  /** A servers row; archived when deletedAt is set. */
  datatype Server = Server(
    name: string, apiURL: string, certSHA256: string, maxKeys: Option<int>,
    defaultLimitBytes: Option<int>, defaultPriceMmk: Option<int>, bandwidthLimitBytes: Option<int>,
    bandwidthDisabledAt: Option<Time>, bandwidthReenabledAt: Option<Time>,
    deletedAt: Option<Time>, syncFailed: bool)

  datatype User = User(name: string, primaryKeyID: Option<Id>, token: string)

  datatype RenewalLog = RenewalLog(
    keyID: Id, addedGB: real, addedDays: int, newLimitBytes: Option<int>, newEndDate: Option<Time>,
    paid: bool, amountMmk: Option<int>)

  /** A cumulative usage reading; keyID is None for the server-wide total. */
  datatype UsageSnapshot = UsageSnapshot(serverID: Id, keyID: Option<Id>, bytesTotal: int, recordedAt: Time)

  // ---------------------------------------------------------------- key status

  datatype Derived = Derived(
    status: KeyStatus, daysLeft: Option<int>, remainingBytes: Option<int>, shouldBeEnabled: bool)

  /** Whole days in a span, any started day counted. */
  function DaysRoundedUp(span: int): int { -((-span) / DAY) }

  predicate OverDate(now: Time, endDate: Option<Time>) { endDate.Some? && now > endDate.value }

  predicate OverQuota(limitBytes: Option<int>, usedBytes: int) { limitBytes.Some? && usedBytes >= limitBytes.value }

  /** Outline access should be on. */
  predicate InBounds(now: Time, key: Key) {
    !OverDate(now, key.endDate) && !OverQuota(key.limitBytes, key.usedBytes)
  }

  function StatusOf(now: Time, key: Key): KeyStatus {
    if OverDate(now, key.endDate) then Expired
    else if OverQuota(key.limitBytes, key.usedBytes) then LimitExceeded
    else if !key.enabled then Disabled
    else Active
  }

  function DaysLeft(now: Time, endDate: Time): int {
    var d := DaysRoundedUp(endDate - now);
    if d < 0 then 0 else d
  }

  function RemainingBytes(limitBytes: int, usedBytes: int): int {
    if limitBytes - usedBytes < 0 then 0 else limitBytes - usedBytes
  }

  /** DeriveKeyStatus: the live status of a key and what follows from it. */
  function Derive(now: Time, key: Key): Derived {
    Derived(
      StatusOf(now, key),
      if key.endDate.Some? then Some(DaysLeft(now, key.endDate.value)) else None,
      if key.limitBytes.Some? then Some(RemainingBytes(key.limitBytes.value, key.usedBytes)) else None,
      InBounds(now, key))
  }

  /** "Running low": less than 3 GB of quota left, or in the last 24 hours. */
  predicate RunningLow(now: Time, key: Key) {
    || (key.limitBytes.Some? && key.limitBytes.value - key.usedBytes < 3_000_000_000)
    || (key.endDate.Some? && key.endDate.value <= now + 86_400_000_000)
  }

  /** What the sweeps test: fewer than 3 GB remaining, or fewer than 2 (rounded-up) days left. */
  predicate CrossesThreshold(d: Derived) {
    || (d.remainingBytes.Some? && d.remainingBytes.value < RUNNING_LOW_REMAINING_BYTES)
    || (d.daysLeft.Some? && d.daysLeft.value < RUNNING_LOW_DAYS_LEFT)
  }

  /** Because days are rounded up, "fewer than 2 days left" holds exactly in the last 24 hours. */
  lemma ThresholdIsRunningLow(now: Time, key: Key)
    ensures CrossesThreshold(Derive(now, key)) <==> RunningLow(now, key)
  {
  }

  // ---------------------------------------------------------------- renewals

  /** A float64 operation: the exact result, then rounded by `fl`. */
  type Rounding = real -> real

  /** Round to nearest (section 4.3.1 of IEEE 754-2019): a relative error of at most 2^-53, on zero and
      on the normal range the source's figures stay in. */
  ghost predicate RoundsToNearest(fl: Rounding) {
    forall x: real :: x == 0.0 || 0.000000001 <= x <= 18446744073709551616.0 ==> Within(x, fl(x))
  }

  predicate Within(exact: real, rounded: real) {
    -(exact / 9007199254740992.0) <= rounded - exact <= exact / 9007199254740992.0
  }

  /** int64(x): truncation toward zero. */
  function Truncate(x: real): int {
    if x >= 0.0 then x.Floor else -((-x).Floor)
  }

  /** int64(addGB * BytesPerGB) */
  function BytesOfGB(fl: Rounding, gb: real): int { Truncate(fl(gb * 1_000_000_000.0)) }

  /** float64(bytes) / BytesPerGB */
  function GBOfBytes(fl: Rounding, bytes: int): real { fl(bytes as real / 1_000_000_000.0) }

  /** The bytes a relative top-up of addGB stands for; none when nothing is to be added. */
  function Grant(fl: Rounding, addGB: real): Option<int> {
    if addGB > 0.0 then Some(BytesOfGB(fl, addGB)) else None
  }

  /** The new ceiling and end date of a top-up: fresh headroom over what is used, a fresh period from now. */
  function RenewalTarget(now: Time, key: Key, grant: Option<int>, addDays: int): (Option<int>, Option<Time>) {
    (if grant.Some? then Some(key.usedBytes + grant.value) else key.limitBytes,
     if addDays > 0 then Some(now + addDays * DAY) else key.endDate)
  }

  /** A figure in GB reaches its bytes to within one, and a larger figure never fewer. */
  lemma GBInBytes(fl: Rounding, gb: real)
    requires RoundsToNearest(fl) && 0.1 <= gb <= 4_000_000.0
    ensures
      var bytes := BytesOfGB(fl, gb);
      gb * 1_000_000_000.0 - 2.0 < bytes as real < gb * 1_000_000_000.0 + 1.0
  {
    assert Within(gb * 1_000_000_000.0, fl(gb * 1_000_000_000.0));
  }

  /** Exact arithmetic is one such rounding. */
  lemma ExactRounds()
    ensures RoundsToNearest(x => x)
  {
    var exact: Rounding := x => x;
    assert forall x: real :: x >= 0.0 ==> Within(x, exact(x));
  }

  /** A byte quota turned into GB and back by two rounded operations is the same quota, or one byte short. */
  lemma GBRoundTrip(fl: Rounding, bytes: int)
    requires RoundsToNearest(fl)
    requires 0 <= bytes <= 0x8_0000_0000_0000
    ensures bytes - 1 <= BytesOfGB(fl, GBOfBytes(fl, bytes)) <= bytes
  {
  }
}
