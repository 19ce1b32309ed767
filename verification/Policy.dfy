/** What a key's remote limit and bookkeeping should be, and what repeated reconciling and renewing come to. */
module Policy {
  import opened Wrappers
  import opened Calendar
  import opened Models

  // ---------------------------------------------------------------- one pass over one key

  /** The limit Outline should enforce: zero when out of bounds or switched off, else the key's own ceiling. */
  function DesiredLimit(now: Time, key: Key, off: bool): Option<int> {
    if InBounds(now, key) && !off then key.limitBytes else Some(0)
  }

  /** The row a successful pass leaves: the stored caches brought up to date. The switch plays no part. */
  function Reconciled(now: Time, key: Key): Key {
    key.(enabled := InBounds(now, key), status := StatusOf(now, key))
  }

  /** The end date has passed, or the quota is used up. */
  predicate Spent(now: Time, key: Key) {
    || (key.endDate.Some? && now > key.endDate.value)
    || (key.limitBytes.Some? && key.usedBytes >= key.limitBytes.value)
  }

  /** The status shown says which of the two it is, a passed end date first; a key not spent may lag behind. */
  predicate ShownRight(now: Time, key: Key) {
    if key.endDate.Some? && now > key.endDate.value then key.status == Expired
    else if key.limitBytes.Some? && key.usedBytes >= key.limitBytes.value then key.status == LimitExceeded
    else key.status == Active || key.status == Disabled
  }

  /** How a key is held: at zero when it is spent or its server switched off, else to its own ceiling, if any. */
  predicate HeldTo(now: Time, key: Key, limit: Option<int>, off: bool) {
    && limit == (if off || Spent(now, key) then Some(0) else key.limitBytes)
    && key.enabled == !Spent(now, key)
    && ShownRight(now, key)
  }

  /** Columns only an admin, a renewal or a hand-over changes. */
  predicate SamePolicy(a: Key, b: Key) {
    && a.serverID == b.serverID && a.outlineID == b.outlineID && a.token == b.token
    && a.limitBytes == b.limitBytes && a.endDate == b.endDate
    && a.priceMmk == b.priceMmk && a.userID == b.userID && a.autoRenew == b.autoRenew
  }

  function Passes(now: Time, key: Key, n: nat): Key {
    if n == 0 then key else Reconciled(now, Passes(now, key, n - 1))
  }

  /**
    From any stored caches, one pass gets the flag right and two get everything right for good. One pass
    is enough except for a key that is back in bounds while stored as disabled: that one is shown as
    "disabled" for a pass although it already works.
  */
  lemma {:induction false} TwoPassesSettle(now: Time, key: Key, n: nat)
    requires n >= 1
    ensures SamePolicy(Passes(now, key, n), key) && Passes(now, key, n).usedBytes == key.usedBytes
    ensures HeldTo(now, Passes(now, key, n), DesiredLimit(now, key, false), false)
    ensures n >= 2 ==> Passes(now, key, n) == Passes(now, key, 2)
    ensures
      var expired := key.endDate.Some? && now > key.endDate.value;
      var exceeded := key.limitBytes.Some? && key.usedBytes >= key.limitBytes.value;
      && Passes(now, key, 2).status == (if expired then Expired else if exceeded then LimitExceeded else Active)
      && (Passes(now, key, 2) == Passes(now, key, 1) <==> key.enabled || expired || exceeded)
      && (Passes(now, key, 1).status == Disabled <==> !key.enabled && !expired && !exceeded)
  {
    assert Passes(now, key, 1) == Reconciled(now, key);
    if n > 1 { TwoPassesSettle(now, key, n - 1); }
  }

  // ---------------------------------------------------------------- renewals

  /** A renewal raises a set price to the server's current default, never lowers it, and leaves an unset one unset. */
  function RaisedPrice(price: Option<int>, serverDefault: Option<int>): Option<int> {
    if price.Some? && serverDefault.Some? && serverDefault.value > price.value then serverDefault else price
  }

  /** Quota and end date after a renewal of addGB and addDays, either of which may be left out. */
  predicate ToppedUp(fl: Rounding, now: Time, key: Key, row: Key, addGB: real, addDays: int) {
    && row.limitBytes == (if addGB > 0.0 then Some(key.usedBytes + BytesOfGB(fl, addGB)) else key.limitBytes)
    && row.endDate == if addDays > 0 then Some(now + addDays * 86_400_000_000) else key.endDate
  }

  /** A set price has been raised to the server's default if that was higher, and is as it was otherwise. */
  predicate PriceCaughtUp(before: Option<int>, after: Option<int>, serverDefault: Option<int>) {
    if before.Some? && serverDefault.Some? && serverDefault.value > before.value then after == serverDefault
    else after == before
  }

  function Renewed(now: Time, key: Key, server: Server, grant: Option<int>, addDays: int): Key {
    var (limit, end) := RenewalTarget(now, key, grant, addDays);
    key.(limitBytes := limit, endDate := end, priceMmk := RaisedPrice(key.priceMmk, server.defaultPriceMmk))
  }

  /** Whatever the key's history, a renewal leaves exactly the granted bytes and days, and renewing again
      at the same instant grants nothing more. */
  lemma RenewalIsExact(now: Time, key: Key, server: Server, bytes: int, addDays: int)
    requires bytes > 0 && addDays > 0
    ensures var after := Renewed(now, key, server, Some(bytes), addDays);
            && Derive(now, after).remainingBytes == Some(bytes)
            && Derive(now, after).daysLeft == Some(addDays)
            && InBounds(now, after)
            && Renewed(now, after, server, Some(bytes), addDays) == after
  {
  }

  /** How much of a renewal is saved when it stops: limit and end date come first, then the price. */
  datatype Extent = Unsaved | Extended | Repriced

  function RenewedAsFar(now: Time, key: Key, server: Server, grant: Option<int>, addDays: int, far: Extent): Key {
    match far
    case Unsaved => key
    case Extended => Renewed(now, key, server, grant, addDays).(priceMmk := key.priceMmk)
    case Repriced => Renewed(now, key, server, grant, addDays)
  }

  /** The renewals a key goes through, each under the server default of its own day, each as far as it got. */
  datatype Renewal = Renewal(now: Time, usedBytes: int, server: Server, grant: Option<int>, addDays: int, far: Extent)

  function RenewAll(key: Key, rs: seq<Renewal>): Key {
    if rs == [] then key
    else
      var n := |rs| - 1;
      var before := RenewAll(key, rs[..n]);
      RenewedAsFar(rs[n].now, before.(usedBytes := rs[n].usedBytes), rs[n].server, rs[n].grant, rs[n].addDays,
                   rs[n].far)
  }

  predicate Meets(r: Renewal) { r.far == Repriced && r.server.defaultPriceMmk.Some? }

  /** Over any run of renewals, wherever each stops, a set price only ever rises, to at least every default it
      was held against on the way, and an unset price stays unset. */
  lemma {:induction false} PriceRatchet(key: Key, rs: seq<Renewal>)
    ensures key.priceMmk.None? ==> RenewAll(key, rs).priceMmk.None?
    ensures key.priceMmk.Some? ==>
      var after := RenewAll(key, rs).priceMmk;
      && after.Some? && after.value >= key.priceMmk.value
      && (forall i | 0 <= i < |rs| && Meets(rs[i]) :: rs[i].server.defaultPriceMmk.value <= after.value)
      && (after == key.priceMmk || exists i :: 0 <= i < |rs| && Meets(rs[i]) && rs[i].server.defaultPriceMmk == after)
  {
    if rs != [] {
      var n := |rs| - 1;
      PriceRatchet(key, rs[..n]);
      assert forall i | 0 <= i < n :: rs[..n][i] == rs[i];
    }
  }
}
