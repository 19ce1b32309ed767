/**
  One server with its kill switch, as a machine whose steps are the single calls the enforcer makes. What
  a run of them leaves is compared with the same run on a server that has no switch.
*/
module KillSwitch {
  import opened Wrappers
  import opened Calendar
  import opened Models
  import opened Store
  import opened Repositories
  import opened Outline
  import opened Policy

  /** One server: its key rows, the limits its box enforces, and whether the switch is tripped. */
  datatype Site = Site(rows: map<Id, Key>, limits: map<string, Option<int>>, off: bool)

  function SiteOf(s: Id, off: bool, keys: map<Id, Key>, boxes: Boxes): Site {
    Site(map k | k in keys && keys[k].serverID == s :: keys[k],
         if s in boxes then map o | o in boxes[s] :: boxes[s][o].limit else map[],
         off)
  }

  /**
    What may happen to a server. A pass over one key pushes its limit and then saves its caches; either may
    fail to happen. Everything else that is written about a key comes without a look at the switch.
  */
  datatype Act =
    | Reconcile(now: Time, k: Id, pushed: bool, saved: bool)
    | Adopt(k: Id, server: Id, outlineID: string, name: string, access: string, token: string)
    | Relabel(k: Id, name: string, access: string)
    | Meter(k: Id, usedBytes: int)
    | Replan(k: Id, limitBytes: Option<int>, endDate: Option<Time>, priceMmk: Option<int>)
    | Switch(off: bool)

  function WithRow(site: Site, k: Id, row: Key): Site { site.(rows := site.rows[k := row]) }

  predicate Pushes(site: Site, a: Act, o: string) {
    && a.Reconcile? && a.pushed && a.k in site.rows
    && site.rows[a.k].outlineID == o && o in site.limits
  }

  function Play(site: Site, a: Act): Site {
    match a
    case Reconcile(now, k, pushed, saved) =>
      if k !in site.rows then site
      else
        var row := site.rows[k];
        site.(rows := if saved then site.rows[k := Reconciled(now, row)] else site.rows,
              limits := if pushed && row.outlineID in site.limits
                        then site.limits[row.outlineID := DesiredLimit(now, row, site.off)] else site.limits)
    case Adopt(k, server, outlineID, name, access, token) =>
      WithRow(site, k, NewRow(server, outlineID, name, access, token))
    case Relabel(k, name, access) =>
      if k in site.rows then WithRow(site, k, site.rows[k].(name := name, access := access)) else site
    case Meter(k, usedBytes) => if k in site.rows then WithRow(site, k, site.rows[k].(usedBytes := usedBytes)) else site
    case Replan(k, limitBytes, endDate, priceMmk) =>
      if k in site.rows
      then WithRow(site, k, site.rows[k].(limitBytes := limitBytes, endDate := endDate, priceMmk := priceMmk)) else site
    case Switch(off) => site.(off := off)
  }

  function PlayAll(site: Site, acts: seq<Act>): Site {
    if acts == [] then site else Play(PlayAll(site, acts[..|acts| - 1]), acts[|acts| - 1])
  }

  // ---------------------------------------------------------------- with and without the switch

  /** The same history on a server without a switch. */
  function Unswitched(acts: seq<Act>): seq<Act> {
    if acts == [] then []
    else
      var before := Unswitched(acts[..|acts| - 1]);
      if acts[|acts| - 1].Switch? then before else before + [acts[|acts| - 1]]
  }

  /** Where the switch stood when a limit was last pushed for this key of the box, if ever. */
  function LastPush(site: Site, acts: seq<Act>, o: string): Option<bool> {
    if acts == [] then None
    else
      var n := |acts| - 1;
      var before := PlayAll(site, acts[..n]);
      if Pushes(before, acts[n], o) then Some(before.off) else LastPush(site, acts[..n], o)
  }

  lemma PlaySnoc(site: Site, acts: seq<Act>, a: Act)
    ensures PlayAll(site, acts + [a]) == Play(PlayAll(site, acts), a)
  {
    assert (acts + [a])[..|acts|] == acts;
  }

  /** A limit is the one without a switch, or zero if last pushed while tripped. */
  predicate Traceless(with: Site, without: Site, o: string, last: Option<bool>) {
    && o in with.limits && o in without.limits
    && with.limits[o] == if last == Some(true) then Some(0) else without.limits[o]
  }

  /** The same rows, and the same keys on the box, without a switch. */
  predicate Beside(with: Site, without: Site) {
    with.rows == without.rows && with.limits.Keys == without.limits.Keys && !without.off
  }

  lemma StepBeside(with: Site, without: Site, a: Act)
    requires Beside(with, without)
    ensures Beside(Play(with, a), if a.Switch? then without else Play(without, a))
  {
  }

  lemma StepTraceless(with: Site, without: Site, a: Act, o: string, last: Option<bool>)
    requires Beside(with, without) && Traceless(with, without, o, last)
    ensures Traceless(Play(with, a), if a.Switch? then without else Play(without, a), o,
                      if Pushes(with, a, o) then Some(with.off) else last)
  {
  }

  /**
    Over any run, with any calls failing, the key rows are those of a server without a switch, and so is
    every remote limit, except that a key last pushed while the switch was tripped is at zero.
  */
  lemma {:induction false} SwitchLeavesNoTrace(site: Site, acts: seq<Act>)
    ensures Beside(PlayAll(site, acts), PlayAll(site.(off := false), Unswitched(acts)))
    ensures forall o | o in site.limits ::
      Traceless(PlayAll(site, acts), PlayAll(site.(off := false), Unswitched(acts)), o, LastPush(site, acts, o))
  {
    if acts != [] {
      var n := |acts| - 1;
      SwitchLeavesNoTrace(site, acts[..n]);
      var with, without := PlayAll(site, acts[..n]), PlayAll(site.(off := false), Unswitched(acts[..n]));
      PlaySnoc(site.(off := false), Unswitched(acts[..n]), acts[n]);
      StepBeside(with, without, acts[n]);
      forall o | o in site.limits
        ensures Traceless(PlayAll(site, acts), PlayAll(site.(off := false), Unswitched(acts)), o,
                          LastPush(site, acts, o))
      {
        StepTraceless(with, without, acts[n], o, LastPush(site, acts[..n], o));
      }
    }
  }

  // ---------------------------------------------------------------- what the enforcer does is such a run

  datatype Kind = Passing | Syncing | Renewing

  /** The acts each kind of operation is made of. None of them moves the switch. */
  predicate MayAct(kind: Kind, now: Time, a: Act) {
    || (a.Reconcile? && a.now == now && (a.saved ==> a.pushed))
    || (kind == Syncing && (a.Adopt? || a.Relabel? || a.Meter?))
    || (kind == Renewing && a.Replan?)
  }

  ghost predicate Leads(kind: Kind, now: Time, site: Site, after: Site) {
    exists acts {:trigger PlayAll(site, acts)} ::
      (forall i | 0 <= i < |acts| :: MayAct(kind, now, acts[i])) && PlayAll(site, acts) == after
  }

  lemma LeadsNowhere(kind: Kind, now: Time, site: Site)
    ensures Leads(kind, now, site, site)
  {
    assert PlayAll(site, []) == site;
  }

  lemma LeadsFurther(kind: Kind, now: Time, site: Site, mid: Site, a: Act)
    requires Leads(kind, now, site, mid) && MayAct(kind, now, a)
    ensures Leads(kind, now, site, Play(mid, a))
  {
    var acts :| (forall i | 0 <= i < |acts| :: MayAct(kind, now, acts[i])) && PlayAll(site, acts) == mid;
    PlaySnoc(site, acts, a);
    assert forall i | 0 <= i < |acts + [a]| :: MayAct(kind, now, (acts + [a])[i]);
  }

  lemma {:induction false} PlayAppend(site: Site, acts: seq<Act>, more: seq<Act>)
    ensures PlayAll(site, acts + more) == PlayAll(PlayAll(site, acts), more)
  {
    if more == [] {
      assert acts + more == acts;
    } else {
      var n := |more| - 1;
      PlayAppend(site, acts, more[..n]);
      assert (acts + more)[..|acts| + n] == acts + more[..n];
    }
  }

  lemma LeadsOn(kind: Kind, now: Time, site: Site, mid: Site, after: Site)
    requires Leads(kind, now, site, mid) && Leads(kind, now, mid, after)
    ensures Leads(kind, now, site, after)
  {
    var acts :| (forall i | 0 <= i < |acts| :: MayAct(kind, now, acts[i])) && PlayAll(site, acts) == mid;
    var more :| (forall i | 0 <= i < |more| :: MayAct(kind, now, more[i])) && PlayAll(mid, more) == after;
    PlayAppend(site, acts, more);
    var all := acts + more;
    forall i | 0 <= i < |all| ensures MayAct(kind, now, all[i]) { assert i >= |acts| ==> all[i] == more[i - |acts|]; }
  }

  /** One operation on a server: what the enforcer does, or the switch being moved. */
  ghost predicate Operated(site: Site, after: Site) {
    || after == site.(off := after.off)
    || exists kind, now {:trigger Leads(kind, now, site, after)} :: Leads(kind, now, site, after)
  }

  lemma OperationIsActs(site: Site, after: Site) returns (acts: seq<Act>)
    requires Operated(site, after)
    ensures PlayAll(site, acts) == after
  {
    if after == site.(off := after.off) {
      acts := [Switch(after.off)];
      PlaySnoc(site, [], Switch(after.off));
      assert [] + acts == acts;
    } else {
      var kind, now :| Leads(kind, now, site, after);
      acts :| (forall i | 0 <= i < |acts| :: MayAct(kind, now, acts[i])) && PlayAll(site, acts) == after;
    }
  }

  /** So any run of syncs, sweeps, trips, re-enables, renewals and edits is a run of acts. */
  lemma {:induction false} OperationsAreActs(sites: seq<Site>) returns (acts: seq<Act>)
    requires sites != [] && forall i | 0 < i < |sites| :: Operated(sites[i - 1], sites[i])
    ensures PlayAll(sites[0], acts) == sites[|sites| - 1]
  {
    acts := [];
    if |sites| > 1 {
      var n := |sites| - 1;
      acts := OperationsAreActs(sites[..n]);
      var more := OperationIsActs(sites[n - 1], sites[n]);
      PlayAppend(sites[0], acts, more);
      acts := acts + more;
    }
  }

  /** Whatever the enforcer did, it left the rows as it would have left them without a switch. */
  lemma LedAlike(kind: Kind, now: Time, site: Site, after: Site)
    requires Leads(kind, now, site, after)
    ensures after.off == site.off
    ensures exists plain :: Leads(kind, now, site.(off := false), plain) && plain.rows == after.rows
  {
    var acts :| (forall i | 0 <= i < |acts| :: MayAct(kind, now, acts[i])) && PlayAll(site, acts) == after;
    NoSwitchMoved(kind, now, site, acts);
    SwitchLeavesNoTrace(site, acts);
    assert PlayAll(site.(off := false), acts).rows == after.rows;
    assert Leads(kind, now, site.(off := false), PlayAll(site.(off := false), acts));
  }

  lemma {:induction false} NoSwitchMoved(kind: Kind, now: Time, site: Site, acts: seq<Act>)
    requires forall i | 0 <= i < |acts| :: MayAct(kind, now, acts[i])
    ensures PlayAll(site, acts).off == site.off && Unswitched(acts) == acts
  {
    if acts != [] {
      var n := |acts| - 1;
      NoSwitchMoved(kind, now, site, acts[..n]);
      assert MayAct(kind, now, acts[n]) && acts == acts[..n] + [acts[n]];
    }
  }

  /** However a pass over one key ends: not at all, pushed only, or pushed and saved. */
  ghost predicate PassedOver(now: Time, off: bool, key: Key, after: Key, boxes: Boxes, newBoxes: Boxes) {
    || (newBoxes == boxes && after == key)
    || (&& Has(boxes, key.serverID, key.outlineID)
        && newBoxes == WithLimit(boxes, key.serverID, key.outlineID, DesiredLimit(now, key, off))
        && (after == key || after == Reconciled(now, key)))
  }

  /** A pass over one key of server s is one act there. */
  lemma PassIsAct(now: Time, s: Id, off: bool, keys: map<Id, Key>, boxes: Boxes, k: Id, after: Key, newBoxes: Boxes)
    returns (a: Act)
    requires k in keys && keys[k].serverID == s && PassedOver(now, off, keys[k], after, boxes, newBoxes)
    ensures MayAct(Passing, now, a) && MayAct(Syncing, now, a) && MayAct(Renewing, now, a)
    ensures SiteOf(s, off, keys[k := after], newBoxes) == Play(SiteOf(s, off, keys, boxes), a)
  {
    var o := keys[k].outlineID;
    var pushed := Has(boxes, s, o) && newBoxes == WithLimit(boxes, s, o, DesiredLimit(now, keys[k], off));
    a := Reconcile(now, k, pushed, pushed && after == Reconciled(now, keys[k]));
    PassRows(s, off, keys, boxes, newBoxes, k, after);
    PassLimits(s, off, keys, boxes, o, newBoxes);
  }

  lemma PassRows(s: Id, off: bool, keys: map<Id, Key>, boxes: Boxes, newBoxes: Boxes, k: Id, after: Key)
    requires k in keys && keys[k].serverID == after.serverID == s
    ensures SiteOf(s, off, keys[k := after], newBoxes).rows == SiteOf(s, off, keys, boxes).rows[k := after]
    ensures SiteOf(s, off, keys, boxes).rows[k := keys[k]] == SiteOf(s, off, keys, boxes).rows
  {
  }

  lemma PassLimits(s: Id, off: bool, keys: map<Id, Key>, boxes: Boxes, o: string, newBoxes: Boxes)
    ensures forall limit :: Has(boxes, s, o) && newBoxes == WithLimit(boxes, s, o, limit) ==>
      SiteOf(s, off, keys, newBoxes).limits == SiteOf(s, off, keys, boxes).limits[o := limit]
  {
    forall limit | Has(boxes, s, o) && newBoxes == WithLimit(boxes, s, o, limit)
      ensures SiteOf(s, off, keys, newBoxes).limits == SiteOf(s, off, keys, boxes).limits[o := limit]
    {
    }
  }

  /** A write to one row of server s, adopted or already there, is one act there. */
  lemma WriteIsAct(s: Id, off: bool, keys: map<Id, Key>, boxes: Boxes, k: Id, after: Key, a: Act)
    requires after.serverID == s && (k in keys ==> keys[k].serverID == s)
    requires !a.Reconcile? && !a.Switch?
    requires Play(SiteOf(s, off, keys, boxes), a).rows == SiteOf(s, off, keys, boxes).rows[k := after]
    ensures SiteOf(s, off, keys[k := after], boxes) == Play(SiteOf(s, off, keys, boxes), a)
  {
    assert SiteOf(s, off, keys[k := after], boxes).rows == SiteOf(s, off, keys, boxes).rows[k := after];
  }

  /** A row as adopting or refreshing it leaves it, its usage recorded or not yet. */
  predicate AdoptedAs(s: Id, o: string, name: string, access: string, used: int, keys: map<Id, Key>, k: Id, row: Key) {
    var plain := if k in keys then keys[k].(name := name, access := access) else NewRow(s, o, name, access, row.token);
    && (k in keys ==> keys[k].serverID == s && keys[k].outlineID == o)
    && (row == plain || row == plain.(usedBytes := used))
  }

  lemma AdoptionIsActs(now: Time, s: Id, o: string, off: bool, name: string, access: string, used: int,
                       keys: map<Id, Key>, boxes: Boxes, k: Id, row: Key)
    requires AdoptedAs(s, o, name, access, used, keys, k, row)
    ensures Leads(Syncing, now, SiteOf(s, off, keys, boxes), SiteOf(s, off, keys[k := row], boxes))
  {
    var site := SiteOf(s, off, keys, boxes);
    var plain := if k in keys then keys[k].(name := name, access := access) else NewRow(s, o, name, access, row.token);
    var a := if k in keys then Relabel(k, name, access) else Adopt(k, s, o, name, access, row.token);
    LeadsNowhere(Syncing, now, site);
    WriteIsAct(s, off, keys, boxes, k, plain, a);
    LeadsFurther(Syncing, now, site, site, a);
    if row != plain {
      WriteIsAct(s, off, keys[k := plain], boxes, k, row, Meter(k, used));
      LeadsFurther(Syncing, now, site, SiteOf(s, off, keys[k := plain], boxes), Meter(k, used));
      assert keys[k := plain][k := row] == keys[k := row];
    }
  }

  /** Replanning a row of server s and then passing over it. */
  lemma RenewalIsActs(now: Time, s: Id, off: bool, keys: map<Id, Key>, boxes: Boxes, k: Id, row: Key, after: Key,
                      newBoxes: Boxes)
    requires k in keys && keys[k].serverID == s
    requires row == keys[k].(limitBytes := row.limitBytes, endDate := row.endDate, priceMmk := row.priceMmk)
    requires PassedOver(now, off, row, after, boxes, newBoxes)
    ensures Leads(Renewing, now, SiteOf(s, off, keys, boxes), SiteOf(s, off, keys[k := after], newBoxes))
  {
    var site, plan := SiteOf(s, off, keys, boxes), Replan(k, row.limitBytes, row.endDate, row.priceMmk);
    LeadsNowhere(Renewing, now, site);
    WriteIsAct(s, off, keys, boxes, k, row, plan);
    LeadsFurther(Renewing, now, site, site, plan);
    var pass := PassIsAct(now, s, off, keys[k := row], boxes, k, after, newBoxes);
    LeadsFurther(Renewing, now, site, SiteOf(s, off, keys[k := row], boxes), pass);
    assert keys[k := row][k := after] == keys[k := after];
  }
}
