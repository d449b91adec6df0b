/** Folding one run over the tenant's tables (web/lib/monitor-events.ts:123-159), proved to be MonitorSpec.Fold. */
module MonitorStore {
  import opened Common
  import opened MonitorSpec

  /** A row of the alerts table; latency is from the start of the event's day, never negative. */
  datatype Alert = Alert(monitor: Monitor, key: EventKey, kind: Kind, latencyS: int, at: int)

  datatype Counts = Counts(undated: nat, outOfWindow: nat, notActionable: nat, alreadySeen: nat, policy: nat)

  function Total(c: Counts): nat {
    c.undated + c.outOfWindow + c.notActionable + c.alreadySeen + c.policy
  }

  function AlertFor(a: Input, l: Lead, kind: Kind): Alert
    requires l.date.OnDay?
  {
    Alert(a.monitor, KeyOf(l), kind, Max(0, a.now - l.date.day * DAY_S), a.now)
  }

  /** The alerts of a run: its transitions that the policy lets through, in order. */
  function AlertsOf(a: Input, ds: seq<Decision>): seq<Alert>
    requires |ds| <= |a.leads|
  {
    if ds == [] then []
    else
      var n := |ds| - 1;
      AlertsOf(a, ds[..n]) +
      (if ds[n].Transition? && ds[n].alert && a.leads[n].date.OnDay? then [AlertFor(a, a.leads[n], ds[n].kind)] else [])
  }

  lemma AlertsNext(a: Input, ds: seq<Decision>, d: Decision)
    requires |ds| < |a.leads| && (d.Transition? ==> a.leads[|ds|].date.OnDay?)
    ensures AlertsOf(a, ds + [d]) ==
      AlertsOf(a, ds) + (if d.Transition? && d.alert then [AlertFor(a, a.leads[|ds|], d.kind)] else [])
  {
  }

  function Bump(c: Counts, d: Decision): Counts {
    match d
    case Suppressed(Undated) => c.(undated := c.undated + 1)
    case Suppressed(OutOfWindow) => c.(outOfWindow := c.outOfWindow + 1)
    case Suppressed(NotActionable) => c.(notActionable := c.notActionable + 1)
    case Suppressed(AlreadySeen) => c.(alreadySeen := c.alreadySeen + 1)
    case Transition(_, alert) => if alert then c else c.(policy := c.policy + 1)
  }

  /** The counts of a run's decisions. */
  function Tallied(ds: seq<Decision>): Counts {
    if ds == [] then Counts(0, 0, 0, 0, 0) else Bump(Tallied(ds[..|ds| - 1]), ds[|ds| - 1])
  }

  lemma TalliedNext(ds: seq<Decision>, d: Decision)
    ensures Tallied(ds + [d]) == Bump(Tallied(ds), d)
  {
    assert (ds + [d])[..|ds|] == ds;
  }

  predicate DatedWhenTold(a: Input, ds: seq<Decision>)
    requires |ds| <= |a.leads|
  {
    forall i :: 0 <= i < |ds| && ds[i].Transition? ==> a.leads[i].date.OnDay?
  }

  lemma BumpCountsOne(c: Counts, d: Decision)
    ensures Total(Bump(c, d)) == Total(c) + (if d.Transition? && d.alert then 0 else 1)
  {
  }

  /** What one more decision adds. */
  lemma FoldsNext(a: Input, start: MonitorSpec.State, checks: map<Source, int>, latest: Option<int>, ds: seq<Decision>, d: Decision)
    requires |ds| < |a.leads| && FoldLeads(start, a, checks, latest, |ds|).1 == ds
    requires
      var l := a.leads[|ds|];
      d == FoldLead(FoldLeads(start, a, checks, latest, |ds|).0, a, l, WindowFor(checks, latest, a.windowDays, l.source, a.now)).1
    requires (d.Transition? ==> a.leads[|ds|].date.OnDay?) && DatedWhenTold(a, ds)
    ensures DatedWhenTold(a, ds + [d]) && Tallied(ds + [d]) == Bump(Tallied(ds), d)
    ensures AlertsOf(a, ds + [d]) ==
      AlertsOf(a, ds) + (if d.Transition? && d.alert then [AlertFor(a, a.leads[|ds|], d.kind)] else [])
    ensures FoldLeads(start, a, checks, latest, |ds| + 1).1 == ds + [d]
  {
    AlertsNext(a, ds, d);
    TalliedNext(ds, d);
  }

  /** Every lead is an alert or counted once. */
  lemma {:induction false} AllCounted(a: Input, ds: seq<Decision>)
    requires |ds| <= |a.leads| && DatedWhenTold(a, ds)
    ensures |AlertsOf(a, ds)| + Total(Tallied(ds)) == |ds|
  {
    if ds != [] {
      var n := |ds| - 1;
      AllCounted(a, ds[..n]);
      BumpCountsOne(Tallied(ds[..n]), ds[n]);
    }
  }

  class Tenant {
    var events: map<EventKey, EventRow>
    var cursors: map<(Monitor, Source), Cursor>
    var alerts: seq<Alert>

    constructor ()
      ensures State() == MonitorSpec.State(map[], map[]) && alerts == []
    {
      events, cursors, alerts := map[], map[], [];
    }

    function State(): MonitorSpec.State
      reads `events, `cursors
    {
      MonitorSpec.State(events, cursors)
    }

    method LatestCheck(checks: map<Source, int>) returns (at: Option<int>)
      ensures at == Latest(checks)
    {
      at := None;
      var todo := checks.Keys;
      while todo != {}
        invariant todo <= checks.Keys
        invariant IsLatest(map s | s in checks && s !in todo :: checks[s], at)
        decreases |todo|
      {
        var s :| s in todo;
        ghost var seen := map x | x in checks && x !in todo :: checks[x];
        todo := todo - {s};
        ghost var more := map x | x in checks && x !in todo :: checks[x];
        assert more == seen[s := checks[s]];
        if at.None? || at.value < checks[s] {
          at := Some(checks[s]);
        }
        LatestWith(seen, s, checks[s], at);
      }
      assert (map s | s in checks && s !in {} :: checks[s]) == checks;
      LatestIsUnique(checks, at, Latest(checks));
    }

    /** One lead; `d` is what it was decided to be. */
    method FoldOne(a: Input, l: Lead, windowDays: Days) returns (d: Decision)
      modifies this
      ensures (State(), d) == FoldLead(old(State()), a, l, windowDays)
      ensures d.Transition? ==> l.date.OnDay?
      ensures alerts == old(alerts) + (if d.Transition? && d.alert then [AlertFor(a, l, d.kind)] else [])
    {
      if !Dated(l) { return Suppressed(Undated); }
      if !InWindow(l.date, windowDays, a.now) { return Suppressed(OutOfWindow); }
      var key := KeyOf(l);
      d := Decide(events, l, a.policy);
      var acts := d.Transition? && d.kind != NowReachable;
      var reaches := d.Transition? && l.reachable;
      var row := if key in events then events[key].(lastChecked := a.now) else EventRow(a.monitor, a.now, a.now, None, None);
      if acts && row.actionableAt.None? { row := row.(actionableAt := Some(a.now)); }
      if reaches && row.reachableAt.None? { row := row.(reachableAt := Some(a.now)); }
      events := events[key := row];
      if d.Transition? && d.alert { alerts := alerts + [AlertFor(a, l, d.kind)]; }
      var k := (a.monitor, l.source);
      var last := if k in cursors && cursors[k].lastEvent >= l.date.day then cursors[k].lastEvent else l.date.day;
      cursors := cursors[k := Cursor(last, a.now)];
    }

    /** The first leads of the run are folded, their alerts written and the rest of them counted. */
    ghost predicate FoldedTo(a: Input, start: MonitorSpec.State, before: seq<Alert>, checks: map<Source, int>,
                             latest: Option<int>, ds: seq<Decision>, suppressed: Counts)
      requires |ds| <= |a.leads|
      reads this
    {
      && (State(), ds) == FoldLeads(start, a, checks, latest, |ds|)
      && alerts == before + AlertsOf(a, ds) && suppressed == Tallied(ds) && DatedWhenTold(a, ds)
    }

    /** The next lead. */
    method FoldNext(a: Input, i: nat, checks: map<Source, int>, latest: Option<int>, ghost start: MonitorSpec.State,
                    ghost before: seq<Alert>, ghost ds: seq<Decision>, counts: Counts)
      returns (suppressed: Counts, ghost d: Decision)
      requires i == |ds| < |a.leads| && FoldedTo(a, start, before, checks, latest, ds, counts)
      modifies this
      ensures FoldedTo(a, start, before, checks, latest, ds + [d], suppressed)
    {
      var l := a.leads[i];
      var decided := FoldOne(a, l, WindowFor(checks, latest, a.windowDays, l.source, a.now));
      d := decided;
      suppressed := Bump(counts, decided);
      FoldsNext(a, start, checks, latest, ds, d);
    }

    /** The whole run: every lead is an alert or a counted suppression. */
    method FoldRunEvents(a: Input) returns (suppressed: Counts, ghost ds: seq<Decision>)
      modifies this
      ensures (State(), ds) == Fold(old(State()), a) && |ds| == |a.leads|
      ensures alerts == old(alerts) + AlertsOf(a, ds) && suppressed == Tallied(ds)
      ensures |AlertsOf(a, ds)| + Total(suppressed) == |a.leads|
    {
      var checks := Checks(cursors, a.monitor);
      var latest := LatestCheck(checks);
      suppressed, ds := Counts(0, 0, 0, 0, 0), [];
      ghost var start, before := State(), alerts;
      for i := 0 to |a.leads|
        invariant |ds| == i && FoldedTo(a, start, before, checks, latest, ds, suppressed)
      {
        ghost var d;
        suppressed, d := FoldNext(a, i, checks, latest, start, before, ds, suppressed);
        ds := ds + [d];
      }
      AllCounted(a, ds);
    }
  }

  lemma LatestIsUnique(checks: map<Source, int>, a: Option<int>, b: Option<int>)
    requires IsLatest(checks, a) && IsLatest(checks, b)
    ensures a == b
  {
  }

  lemma LatestWith(seen: map<Source, int>, s: Source, at: int, latest: Option<int>)
    requires exists before :: IsLatest(seen, before) && latest == if before.None? || before.value < at then Some(at) else before
    requires s !in seen
    ensures IsLatest(seen[s := at], latest)
  {
    var before :| IsLatest(seen, before) && latest == if before.None? || before.value < at then Some(at) else before;
    var more := seen[s := at];
    assert s in more && more[s] == at;
    if latest == before {
      var x :| x in seen && seen[x] == before.value;
      assert x in more && more[x] == before.value;
    }
  }
}
