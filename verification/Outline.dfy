/**
  The fleet of Outline boxes, one per server row, behind calls any of which may fail.

  A call that does not get through counts as a fault. It may still have taken effect on the box, except
  that a key creation reported as failed leaves nothing behind unless it returns the key.
*/
module Outline {
  import opened Wrappers
  import opened Models
  import opened Repositories

  datatype RemoteKey = RemoteKey(name: string, access: string, limit: Option<int>)

  type Boxes = map<Id, map<string, RemoteKey>>

  predicate Has(boxes: Boxes, server: Id, outlineID: string) {
    server in boxes && outlineID in boxes[server]
  }

  function WithKey(boxes: Boxes, server: Id, outlineID: string, key: RemoteKey): Boxes
    requires server in boxes
  {
    boxes[server := boxes[server][outlineID := key]]
  }

  function WithLimit(boxes: Boxes, server: Id, outlineID: string, limit: Option<int>): Boxes
    requires Has(boxes, server, outlineID)
  {
    WithKey(boxes, server, outlineID, boxes[server][outlineID].(limit := limit))
  }

  function WithoutRemoteKey(boxes: Boxes, server: Id, outlineID: string): Boxes
    requires server in boxes
  {
    boxes[server := boxes[server] - {outlineID}]
  }

  /** How a limit push can end: applied, refused for want of the key, or not heard back from. */
  ghost predicate Pushed(before: Boxes, after: Boxes, newFaults: int, server: Id, outlineID: string,
                         limit: Option<int>, err: Option<Error>)
  {
    match err
    case None =>
      newFaults == 0 && Has(before, server, outlineID) && after == WithLimit(before, server, outlineID, limit)
    case Some(NotFound) =>
      newFaults == 0 && !Has(before, server, outlineID) && after == before
    case Some(Unavailable) =>
      && newFaults == 1
      && (after == before
          || (Has(before, server, outlineID) && after == WithLimit(before, server, outlineID, limit)))
    case Some(Refused) => false
  }

  // ---------------------------------------------------------------- usage figures

  predicate Digits(s: string) { forall i | 0 <= i < |s| :: '0' <= s[i] <= '9' }

  function DigitsValue(s: string): nat
    requires Digits(s)
  {
    if s == [] then 0 else 10 * DigitsValue(s[..|s| - 1]) + (s[|s| - 1] as int - '0' as int)
  }

  function Itoa(n: nat): string {
    if n < 10 then [('0' as int + n) as char] else Itoa(n / 10) + [('0' as int + n % 10) as char]
  }

  /** strconv.Itoa(strconv.Atoi(id)) for a 64-bit int: a sign, then digits without leading zeros. */
  function Normalized(id: string): Option<string> {
    var signed := id != [] && (id[0] == '-' || id[0] == '+');
    var digits := if signed then id[1..] else id;
    if digits == [] || !Digits(digits) then None
    else
      var n := DigitsValue(digits);
      var negative := signed && id[0] == '-';
      if n > (if negative then 0x8000_0000_0000_0000 else 0x7FFF_FFFF_FFFF_FFFF) then None
      else Some((if negative && n > 0 then "-" else "") + Itoa(n))
  }

  /** A key's cumulative bytes; absent from the report under either spelling of its id means zero. */
  function UsageForKey(metrics: map<string, int>, outlineID: string): int {
    if outlineID in metrics then metrics[outlineID]
    else
      var n := Normalized(outlineID);
      if n.Some? && n.value in metrics then metrics[n.value] else 0
  }

  /** Decimal digits without leading zeros. */
  predicate Canonical(s: string) { s != [] && Digits(s) && (s[0] != '0' || |s| == 1) }

  lemma {:induction false} ItoaIsCanonical(n: nat)
    ensures Canonical(Itoa(n)) && DigitsValue(Itoa(n)) == n
    ensures n > 0 ==> Itoa(n)[0] != '0'
  {
    if n >= 10 {
      ItoaIsCanonical(n / 10);
      assert Itoa(n)[..|Itoa(n)| - 1] == Itoa(n / 10);
    }
  }

  lemma ItoaSnoc(m: nat, d: nat)
    requires m > 0 && d < 10
    ensures Itoa(10 * m + d) == Itoa(m) + [('0' as int + d) as char]
  {
    assert (10 * m + d) / 10 == m && (10 * m + d) % 10 == d;
  }

  lemma OneDigit(s: string)
    requires |s| == 1 && Digits(s)
    ensures DigitsValue(s) == s[0] as int - '0' as int && Itoa(DigitsValue(s)) == s
  {
    assert s[..0] == [] && s == [s[0]];
  }

  lemma {:induction false} CanonicalIsItoa(s: string)
    requires Canonical(s)
    ensures Itoa(DigitsValue(s)) == s
    ensures s[0] != '0' ==> DigitsValue(s) > 0
  {
    if |s| == 1 {
      OneDigit(s);
    } else {
      var front, last := s[..|s| - 1], s[|s| - 1];
      CanonicalIsItoa(front);
      ItoaSnoc(DigitsValue(front), last as int - '0' as int);
      assert s == front + [last];
    }
  }

  lemma NumberNormalized(id: string)
    requires id != [] && Digits(id)
    ensures Normalized(id) ==
      if DigitsValue(id) > 0x7FFF_FFFF_FFFF_FFFF then None else Some(Itoa(DigitsValue(id)))
  {
    assert '0' <= id[0] <= '9';
    assert "" + Itoa(DigitsValue(id)) == Itoa(DigitsValue(id));
  }

  /** A key's figure is the one reported under its id; a name that is not a number has no other. */
  lemma UsageIsAsReported(metrics: map<string, int>, id: string)
    ensures id in metrics ==> UsageForKey(metrics, id) == metrics[id]
    ensures id !in metrics && id != [] && !('0' <= id[|id| - 1] <= '9') ==> UsageForKey(metrics, id) == 0
  {
  }

  /** Failing that, a number is looked for without leading zeros; what is not reported has carried nothing. */
  lemma UsageUnderCanonicalId(metrics: map<string, int>, id: string, canonical: string)
    requires id != [] && Digits(id) && Canonical(canonical) && DigitsValue(id) == DigitsValue(canonical)
    requires id !in metrics && DigitsValue(id) < 0x8000_0000_0000_0000
    ensures UsageForKey(metrics, id) == if canonical in metrics then metrics[canonical] else 0
  {
    NumberNormalized(id);
    CanonicalIsItoa(canonical);
  }

  function SumTransfer(metrics: map<string, int>, ids: seq<string>): int
    requires forall i | 0 <= i < |ids| :: ids[i] in metrics
  {
    if ids == [] then 0 else metrics[ids[0]] + SumTransfer(metrics, ids[1..])
  }

  /** The report's figures added up, in some order. */
  ghost predicate IsSum(metrics: map<string, int>, total: int) {
    exists ids {:trigger Enumerates(ids, metrics.Keys)} :: Enumerates(ids, metrics.Keys)
      && (forall i | 0 <= i < |ids| :: ids[i] in metrics) && total == SumTransfer(metrics, ids)
  }

  /** The total is one figure, whatever the order of addition. */
  lemma SumIsUnique(metrics: map<string, int>, total: int, other: int)
    requires IsSum(metrics, total) && IsSum(metrics, other)
    ensures total == other
  {
    var ids :| Enumerates(ids, metrics.Keys) && (forall i | 0 <= i < |ids| :: ids[i] in metrics)
               && total == SumTransfer(metrics, ids);
    var others :| Enumerates(others, metrics.Keys) && (forall i | 0 <= i < |others| :: others[i] in metrics)
                  && other == SumTransfer(metrics, others);
    SumInAnyOrder(metrics, ids, others);
  }

  lemma NothingIsZero()
    ensures IsSum(map[], 0)
  {
    var none: map<string, int> := map[];
    assert Enumerates([], none.Keys);
  }

  /** One key more reported comes to that much more. */
  lemma SumIsOfAll(metrics: map<string, int>, total: int, o: string, bytes: int)
    requires IsSum(metrics, total) && o !in metrics
    ensures IsSum(metrics[o := bytes], total + bytes)
  {
    var ids :| Enumerates(ids, metrics.Keys) && (forall i | 0 <= i < |ids| :: ids[i] in metrics)
               && total == SumTransfer(metrics, ids);
    SumOneMore(metrics, ids, o, bytes);
  }

  lemma SumOneMore(metrics: map<string, int>, ids: seq<string>, o: string, bytes: int)
    requires o !in metrics && Enumerates(ids, metrics.Keys) && forall i | 0 <= i < |ids| :: ids[i] in metrics
    ensures Enumerates([o] + ids, metrics[o := bytes].Keys)
    ensures forall i | 0 <= i < |[o] + ids| :: ([o] + ids)[i] in metrics[o := bytes]
    ensures SumTransfer(metrics[o := bytes], [o] + ids) == SumTransfer(metrics, ids) + bytes
  {
    EnumeratesMore(ids, metrics.Keys, o);
    SumElsewhere(metrics, ids, o, bytes);
    assert metrics[o := bytes].Keys == metrics.Keys + {o} && ([o] + ids)[1..] == ids;
  }

  lemma EnumeratesMore(ids: seq<string>, names: set<string>, o: string)
    requires Enumerates(ids, names) && o !in names
    ensures Enumerates([o] + ids, names + {o})
    ensures forall i | 0 <= i < |ids| :: ids[i] in names
  {
    forall i | 0 <= i < |ids| ensures ids[i] in names { assert ids[i] in ids; }
  }

  lemma {:induction false} SumElsewhere(metrics: map<string, int>, ids: seq<string>, o: string, bytes: int)
    requires forall i | 0 <= i < |ids| :: ids[i] in metrics && ids[i] != o
    ensures SumTransfer(metrics[o := bytes], ids) == SumTransfer(metrics, ids)
  {
    if ids != [] { SumElsewhere(metrics, ids[1..], o, bytes); }
  }

  lemma {:induction false} SumInAnyOrder(metrics: map<string, int>, ids: seq<string>, others: seq<string>)
    requires forall i | 0 <= i < |ids| :: ids[i] in metrics
    requires forall i | 0 <= i < |others| :: others[i] in metrics
    requires forall i, j | 0 <= i < j < |ids| :: ids[i] != ids[j]
    requires forall i, j | 0 <= i < j < |others| :: others[i] != others[j]
    requires forall o :: o in ids <==> o in others
    ensures SumTransfer(metrics, ids) == SumTransfer(metrics, others)
  {
    if others != [] { assert others[0] in ids; }
    if ids != [] {
      assert ids[0] in others;
      var i :| 0 <= i < |others| && others[i] == ids[0];
      var rest := others[..i] + others[i + 1..];
      SumWithout(metrics, others, i);
      WithoutOne(others, i);
      WithoutOne(ids, 0);
      assert ids[..0] + ids[1..] == ids[1..];
      SumInAnyOrder(metrics, ids[1..], rest);
    }
  }

  lemma WithoutOne(ids: seq<string>, i: nat)
    requires i < |ids| && forall a, b | 0 <= a < b < |ids| :: ids[a] != ids[b]
    ensures var rest := ids[..i] + ids[i + 1..];
      && (forall a, b | 0 <= a < b < |rest| :: rest[a] != rest[b])
      && (forall o :: o in rest <==> o in ids && o != ids[i])
  {
    var rest := ids[..i] + ids[i + 1..];
    assert forall a | 0 <= a < |rest| :: rest[a] == ids[if a < i then a else a + 1];
    forall o | o in ids && o != ids[i] ensures o in rest {
      var a :| 0 <= a < |ids| && ids[a] == o;
      assert rest[if a < i then a else a - 1] == o;
    }
  }

  lemma {:induction false} SumWithout(metrics: map<string, int>, ids: seq<string>, i: nat)
    requires i < |ids| && forall j | 0 <= j < |ids| :: ids[j] in metrics
    ensures var rest := ids[..i] + ids[i + 1..];
      && (forall j | 0 <= j < |rest| :: rest[j] in metrics)
      && SumTransfer(metrics, ids) == metrics[ids[i]] + SumTransfer(metrics, rest)
  {
    if i == 0 {
      assert ids[..0] + ids[1..] == ids[1..];
    } else {
      SumWithout(metrics, ids[1..], i - 1);
      assert (ids[..i] + ids[i + 1..])[1..] == ids[1..][..i - 1] + ids[1..][i..];
    }
  }

  // ---------------------------------------------------------------- the client

  class Fleet {
    var boxes: Boxes
    ghost var faults: nat

    constructor (boxes: Boxes)
      ensures this.boxes == boxes && faults == 0
    {
      this.boxes, faults := boxes, 0;
    }

    method ListAccessKeys(server: Id) returns (r: Result<seq<string>, Error>)
      modifies `faults
      ensures r.Ok? ==> server in boxes && Enumerates(r.value, boxes[server].Keys) && faults == old(faults)
      ensures r.Err? ==> r.error == Unavailable && faults == old(faults) + 1
    {
      var through: bool := *;
      if !through || server !in boxes { faults := faults + 1; return Err(Unavailable); }
      var ids := Enumerate(boxes[server].Keys);
      r := Ok(ids);
    }

    /** The figures themselves are the box's own. */
    method GetMetricsTransfer(server: Id) returns (r: Result<map<string, int>, Error>)
      modifies `faults
      ensures r.Ok? ==> server in boxes && faults == old(faults)
      ensures r.Err? ==> r.error == Unavailable && faults == old(faults) + 1
    {
      var through: bool := *;
      if !through || server !in boxes { faults := faults + 1; return Err(Unavailable); }
      var metrics: map<string, int> := *;
      r := Ok(metrics);
    }

    /** PUT or, for None, DELETE of a key's data limit. */
    method PushLimit(server: Id, outlineID: string, limit: Option<int>) returns (err: Option<Error>)
      modifies this
      ensures Pushed(old(boxes), boxes, faults - old(faults), server, outlineID, limit, err)
    {
      var through: bool, applied: bool := *, *;
      if !through || server !in boxes {
        faults := faults + 1;
        if applied && Has(boxes, server, outlineID) { boxes := WithLimit(boxes, server, outlineID, limit); }
        return Some(Unavailable);
      }
      if outlineID !in boxes[server] { return Some(NotFound); }
      boxes := WithLimit(boxes, server, outlineID, limit);
      err := None;
    }

    method SetDataLimit(server: Id, outlineID: string, bytes: int) returns (err: Option<Error>)
      modifies this
      ensures Pushed(old(boxes), boxes, faults - old(faults), server, outlineID, Some(bytes), err)
    {
      err := PushLimit(server, outlineID, Some(bytes));
    }

    method RemoveDataLimit(server: Id, outlineID: string) returns (err: Option<Error>)
      modifies this
      ensures Pushed(old(boxes), boxes, faults - old(faults), server, outlineID, None, err)
    {
      err := PushLimit(server, outlineID, None);
    }

    /** A failed naming returns the created key's id beside the error. */
    method CreateAccessKey(server: Id, name: string) returns (created: Option<string>, err: Option<Error>)
      modifies this
      ensures created.Some? ==>
        server in old(boxes) && created.value !in old(boxes)[server] && Has(boxes, server, created.value)
      ensures created.Some? ==> boxes == WithKey(old(boxes), server, created.value, boxes[server][created.value])
      ensures created.Some? && err.None? ==> boxes[server][created.value].name == name
      ensures created.None? ==> err.Some? && boxes == old(boxes)
      ensures faults == old(faults) + if err.Some? then 1 else 0
    {
      var through: bool, id: string, named: bool, access: string := *, *, *, *;
      if !through || server !in boxes || id in boxes[server] {
        faults := faults + 1;
        return None, Some(Unavailable);
      }
      boxes := WithKey(boxes, server, id, RemoteKey(if named then name else "", access, None));
      if !named && name != "" {
        faults := faults + 1;
        return Some(id), Some(Unavailable);
      }
      return Some(id), None;
    }

    method RenameAccessKey(server: Id, outlineID: string, name: string) returns (err: Option<Error>)
      modifies this
      ensures boxes == old(boxes) ||
              (Has(old(boxes), server, outlineID)
               && boxes == WithKey(old(boxes), server, outlineID, old(boxes)[server][outlineID].(name := name)))
      ensures old(faults) <= faults <= old(faults) + 1
    {
      var through: bool, applied: bool := *, *;
      if Has(boxes, server, outlineID) && (through || applied) {
        boxes := WithKey(boxes, server, outlineID, boxes[server][outlineID].(name := name));
      }
      if !through || server !in boxes { faults := faults + 1; return Some(Unavailable); }
      err := if Has(boxes, server, outlineID) then None else Some(NotFound);
    }

    method DeleteAccessKey(server: Id, outlineID: string) returns (err: Option<Error>)
      modifies this
      ensures err.None? ==>
        Has(old(boxes), server, outlineID) && boxes == WithoutRemoteKey(old(boxes), server, outlineID)
      ensures err.Some? ==>
        || boxes == old(boxes)
        || (server in old(boxes) && boxes == WithoutRemoteKey(old(boxes), server, outlineID))
      ensures err == Some(NotFound) ==> boxes == old(boxes) && !Has(boxes, server, outlineID)
      ensures faults == old(faults) + if err == Some(Unavailable) then 1 else 0
      ensures err.Some? ==> err.value == NotFound || err.value == Unavailable
    {
      var through: bool, applied: bool := *, *;
      if !through || server !in boxes {
        faults := faults + 1;
        if applied && server in boxes { boxes := WithoutRemoteKey(boxes, server, outlineID); }
        return Some(Unavailable);
      }
      if outlineID !in boxes[server] { return Some(NotFound); }
      boxes := WithoutRemoteKey(boxes, server, outlineID);
      err := None;
    }
  }
}
