/**
  What a run's leads are decided to be and which of them alert (web/lib/monitor-events.ts:49-159), said of what the
  tenant has been told before; how far back a run looks; and what it records.
*/
module MonitorLaws {
  import opened Common
  import opened MonitorSpec
  import opened MonitorRuns
  import opened MonitorStore

  const EMPTY := State(map[], map[])

  // ----- what was told -----

  /** The tenant was told of this event. */
  ghost predicate ToldOf(trace: seq<Told>, key: EventKey) {
    exists i :: 0 <= i < |trace| && IsTransition(trace[i]) && KeyOf(trace[i].lead) == key
  }

  /** The tenant was told of this event when it was reachable. */
  ghost predicate ToldReachable(trace: seq<Told>, key: EventKey) {
    exists i :: 0 <= i < |trace| && IsTransition(trace[i]) && KeyOf(trace[i].lead) == key && trace[i].lead.reachable
  }

  /** The tenant was told of an event of this company. */
  ghost predicate ToldOfCompany(trace: seq<Told>, e: Entity) {
    exists i :: 0 <= i < |trace| && IsTransition(trace[i]) && trace[i].lead.entity == e
  }

  /** The events record exactly what was told. */
  ghost predicate Remembers(events: map<EventKey, EventRow>, trace: seq<Told>) {
    && (forall k :: ToldOf(trace, k) <==> k in events && events[k].actionableAt.Some?)
    && (forall k :: ToldReachable(trace, k) <==> k in events && events[k].reachableAt.Some?)
  }

  /** The lead's day is today or earlier, and no earlier than the day the window began. */
  predicate Inside(l: Lead, windowDays: nat, now: int) {
    l.date.OnDay? && l.date.day <= now / 86400 && l.date.day >= (now - 86400 * windowDays) / 86400
  }

  /**
    What a lead is, given what was told before it. Of those with a verified day in the window that can be used, an event
    never told is news: of a company never told of, a new company, else a new signal; and an event told before that can
    be reached for the first time is now reachable. All else is suppressed, for the first reason that holds.
  */
  ghost predicate DecidedBy(trace: seq<Told>, a: Input, l: Lead, windowDays: nat, d: Decision) {
    if !l.dateVerified || l.date == NoDate then d == Suppressed(Undated)
    else if !Inside(l, windowDays, a.now) then d == Suppressed(OutOfWindow)
    else if !l.usable then d == Suppressed(NotActionable)
    else if ToldOf(trace, KeyOf(l)) && !(l.reachable && !ToldReachable(trace, KeyOf(l))) then d == Suppressed(AlreadySeen)
    else
      && d.Transition?
      && (d.kind == NowReachable <==> ToldOf(trace, KeyOf(l)))
      && (d.kind == NewCompany <==> !ToldOfCompany(trace, l.entity))
      && (d.alert <==> Alerts(a.policy, trace, l))
  }

  /** 'all' alerts on every transition, 'reachable' on those of a lead that can be reached, 'new_companies' on a company's first. */
  ghost predicate Alerts(policy: Policy, trace: seq<Told>, l: Lead) {
    match policy
    case All => true
    case Reachable => l.reachable
    case NewCompanies => !ToldOfCompany(trace, l.entity)
  }

  lemma CompanyKnown(events: map<EventKey, EventRow>, trace: seq<Told>, key: EventKey)
    requires Remembers(events, trace) && !ToldOf(trace, key)
    ensures EntityKnown(events, key) <==> ToldOfCompany(trace, key.entity)
  {
    if EntityKnown(events, key) {
      var k :| k in events && k != key && k.entity == key.entity && events[k].actionableAt.Some?;
      assert ToldOf(trace, k);
      var i :| 0 <= i < |trace| && IsTransition(trace[i]) && KeyOf(trace[i].lead) == k;
      assert trace[i].lead.entity == key.entity;
    }
    if ToldOfCompany(trace, key.entity) {
      var i :| 0 <= i < |trace| && IsTransition(trace[i]) && trace[i].lead.entity == key.entity;
      var k := KeyOf(trace[i].lead);
      assert ToldOf(trace, k);
    }
  }

  lemma ToldIsOfItsCompany(trace: seq<Told>, key: EventKey)
    requires ToldOf(trace, key)
    ensures ToldOfCompany(trace, key.entity)
  {
    var i :| 0 <= i < |trace| && IsTransition(trace[i]) && KeyOf(trace[i].lead) == key;
    assert trace[i].lead.entity == key.entity;
  }

  lemma ALeadIsDecided(st: State, a: Input, l: Lead, w: Days, trace: seq<Told>)
    requires Remembers(st.events, trace)
    ensures DecidedBy(trace, a, l, w, FoldLead(st, a, l, w).1)
  {
    if l.date.OnDay? {
      var key := KeyOf(l);
      assert ToldOf(trace, key) <==> key in st.events && st.events[key].actionableAt.Some?;
      assert ToldReachable(trace, key) <==> key in st.events && st.events[key].reachableAt.Some?;
      if ToldOf(trace, key) { ToldIsOfItsCompany(trace, key); } else { CompanyKnown(st.events, trace, key); }
    }
  }

  lemma OneMoreTold(trace: seq<Told>, x: Told, k: EventKey)
    ensures ToldOf(trace + [x], k) <==> ToldOf(trace, k) || (IsTransition(x) && KeyOf(x.lead) == k)
    ensures ToldReachable(trace + [x], k) <==> ToldReachable(trace, k) || (IsTransition(x) && KeyOf(x.lead) == k && x.lead.reachable)
  {
    var more := trace + [x];
    assert more[|trace|] == x && forall i :: 0 <= i < |trace| ==> more[i] == trace[i];
    if ToldOf(trace, k) {
      var i :| 0 <= i < |trace| && IsTransition(trace[i]) && KeyOf(trace[i].lead) == k;
      assert more[i] == trace[i];
    }
    if ToldReachable(trace, k) {
      var i :| 0 <= i < |trace| && IsTransition(trace[i]) && KeyOf(trace[i].lead) == k && trace[i].lead.reachable;
      assert more[i] == trace[i];
    }
  }

  lemma ALeadIsRemembered(st: State, a: Input, l: Lead, w: Days, trace: seq<Told>)
    requires Remembers(st.events, trace)
    ensures Remembers(FoldLead(st, a, l, w).0.events, trace + [Told(l, FoldLead(st, a, l, w).1)])
  {
    var (st', d) := FoldLead(st, a, l, w);
    forall k: EventKey
      ensures ToldOf(trace + [Told(l, d)], k) <==> k in st'.events && st'.events[k].actionableAt.Some?
      ensures ToldReachable(trace + [Told(l, d)], k) <==> k in st'.events && st'.events[k].reachableAt.Some?
    {
      OneMoreTold(trace, Told(l, d), k);
      assert ToldOf(trace, k) <==> k in st.events && st.events[k].actionableAt.Some?;
      assert ToldReachable(trace, k) <==> k in st.events && st.events[k].reachableAt.Some?;
    }
  }

  lemma {:induction false} LeadsAreDecided(st: State, a: Input, checks: map<Source, int>, latest: Option<int>,
                                            n: nat, i: nat, trace: seq<Told>)
    requires i <= n <= |a.leads| && Remembers(st.events, trace)
    ensures |FoldLeads(st, a, checks, latest, n).1| == n
    ensures Remembers(FoldLeads(st, a, checks, latest, n).0.events, trace + Trace(a.leads, FoldLeads(st, a, checks, latest, n).1))
    ensures
      var ds := FoldLeads(st, a, checks, latest, n).1;
      i < n ==> DecidedBy(trace + Trace(a.leads, ds[..i]), a, a.leads[i],
                          WindowFor(checks, latest, a.windowDays, a.leads[i].source, a.now), ds[i])
    decreases n
  {
    var (st', ds) := FoldLeads(st, a, checks, latest, n);
    if n == 0 {
      assert trace + Trace(a.leads, ds) == trace;
    } else {
      var (before, ds0) := FoldLeads(st, a, checks, latest, n - 1);
      LeadsAreDecided(st, a, checks, latest, n - 1, if i < n then i else n - 1, trace);
      var l := a.leads[n - 1];
      var w := WindowFor(checks, latest, a.windowDays, l.source, a.now);
      var told := trace + Trace(a.leads, ds0);
      ALeadIsDecided(before, a, l, w, told);
      ALeadIsRemembered(before, a, l, w, told);
      assert trace + Trace(a.leads, ds) == told + [Told(l, ds[n - 1])];
      assert ds[..n - 1] == ds0;
      if i < n - 1 { assert ds[..i] == ds0[..i]; }
    }
  }

  /** After any runs, from nothing, the events record exactly what the tenant was told. */
  lemma {:induction false} WhatWasToldIsRemembered(runs: seq<Input>)
    ensures Remembers(FoldAll(EMPTY, runs).0.events, FoldAll(EMPTY, runs).1)
  {
    if runs != [] {
      var n := |runs| - 1;
      WhatWasToldIsRemembered(runs[..n]);
      var (before, trace) := FoldAll(EMPTY, runs[..n]);
      var checks := Checks(before.cursors, runs[n].monitor);
      LeadsAreDecided(before, runs[n], checks, Latest(checks), |runs[n].leads|, |runs[n].leads|, trace);
    }
  }

  /**
    Over all runs of all the tenant's monitors, whatever their policies, times and order: each lead of each run is
    decided, and alerts, exactly by what the tenant had been told before it.
  */
  lemma EveryLeadIsDecidedByWhatWasTold(runs: seq<Input>, a: Input, i: nat)
    requires i < |a.leads|
    ensures
      var (before, told) := FoldAll(EMPTY, runs);
      var checks := Checks(before.cursors, a.monitor);
      var ds := Fold(before, a).1;
      && |ds| == |a.leads|
      && DecidedBy(told + Trace(a.leads, ds[..i]), a, a.leads[i],
                   WindowFor(checks, Latest(checks), a.windowDays, a.leads[i].source, a.now), ds[i])
  {
    WhatWasToldIsRemembered(runs);
    var (before, told) := FoldAll(EMPTY, runs);
    var checks := Checks(before.cursors, a.monitor);
    LeadsAreDecided(before, a, checks, Latest(checks), |a.leads|, i, told);
  }

  // ----- how far back a run looks -----

  /** When the monitor last checked the source; for a source it never checked, any source. */
  ghost predicate LastLook(cursors: map<(Monitor, Source), Cursor>, m: Monitor, s: Source, at: int) {
    if (m, s) in cursors then cursors[(m, s)].lastChecked == at
    else && (exists x :: (m, x) in cursors && cursors[(m, x)].lastChecked == at)
         && (forall x :: (m, x) in cursors ==> cursors[(m, x)].lastChecked <= at)
  }

  lemma LastLookExactly(cursors: map<(Monitor, Source), Cursor>, m: Monitor, s: Source, at: int)
    ensures
      var checks := Checks(cursors, m);
      LastLook(cursors, m, s, at) <==> (if s in checks then Some(checks[s]) else Latest(checks)) == Some(at)
  {
    var checks := Checks(cursors, m);
    assert forall x :: x in checks <==> (m, x) in cursors;
    assert IsLatest(checks, Latest(checks));
  }

  /**
    A run's window is the play's own, unless its last look lies further back than that: then it is the fewest whole days
    that reach the last look, but never more than ninety, or the play's own if that is more.
  */
  lemma TheWindowExactly(cursors: map<(Monitor, Source), Cursor>, a: Input, s: Source)
    ensures
      var checks := Checks(cursors, a.monitor);
      var w := WindowFor(checks, Latest(checks), a.windowDays, s, a.now);
      var most := if a.windowDays < 90 then 90 else a.windowDays;
      && a.windowDays <= w <= most
      && (w > a.windowDays ==> exists at :: LastLook(cursors, a.monitor, s, at) && at < a.now - (w - 1) * 86400)
      && (forall at :: LastLook(cursors, a.monitor, s, at) ==> a.now - w * 86400 <= at || w == most)
  {
    var checks := Checks(cursors, a.monitor);
    var last := if s in checks then Some(checks[s]) else Latest(checks);
    forall at ensures LastLook(cursors, a.monitor, s, at) <==> last == Some(at) { LastLookExactly(cursors, a.monitor, s, at); }
    if last.Some? { assert LastLook(cursors, a.monitor, s, last.value); }
  }

  // ----- what is recorded and written -----

  /** Once recorded, a time stays. */
  function Still(was: Option<int>, now: Option<int>): Option<int> {
    match was case Some(t) => Some(t) case None => now
  }

  /**
    Of a lead whose verified day is in the window: its event's row, made if it is new, with when it first became news and
    when it could first be reached; and its source's cursor, at the latest event and the time of the run. Of any other
    lead, nothing.
  */
  lemma WhatALeadRecords(st: State, a: Input, l: Lead, w: Days)
    ensures
      var (st', d) := FoldLead(st, a, l, w);
      if !(l.dateVerified && Inside(l, w, a.now)) then st' == st
      else
        var key, c := EventKey(l.entity, l.date.day, l.signal), (a.monitor, l.source);
        var isNew := d.Transition? && d.kind != NowReachable;
        var row := if key in st.events then st.events[key] else EventRow(a.monitor, a.now, a.now, None, None);
        var last := if c in st.cursors && l.date.day < st.cursors[c].lastEvent then st.cursors[c].lastEvent else l.date.day;
        && st'.events == st.events[key := EventRow(row.monitor, row.firstSeen, a.now,
             Still(row.actionableAt, if isNew then Some(a.now) else None),
             Still(row.reachableAt, if d.Transition? && l.reachable then Some(a.now) else None))]
        && st'.cursors == st.cursors[c := Cursor(last, a.now)]
  {
  }

  /** The alerts from the i-th decision on: one for each transition that alerts, of its own lead, timed from the day it is dated. */
  function Written(a: Input, ds: seq<Decision>, i: nat): seq<Alert>
    requires i <= |ds| <= |a.leads|
    decreases |ds| - i
  {
    if i == |ds| then []
    else
      var l := a.leads[i];
      (if ds[i].Transition? && ds[i].alert && l.date.OnDay?
       then [Alert(a.monitor, EventKey(l.entity, l.date.day, l.signal), ds[i].kind,
                   if a.now < 86400 * l.date.day then 0 else a.now - 86400 * l.date.day, a.now)]
       else []) + Written(a, ds, i + 1)
  }

  lemma {:induction false} WrittenNext(a: Input, ds: seq<Decision>, d: Decision, i: nat)
    requires i <= |ds| < |a.leads|
    ensures Written(a, ds + [d], i) == Written(a, ds, i) + Written(a, ds + [d], |ds|)
    decreases |ds| - i
  {
    if i < |ds| {
      WrittenNext(a, ds, d, i + 1);
      assert (ds + [d])[i] == ds[i];
    }
  }

  /** A run's alerts are these, in the order of its leads. */
  lemma {:induction false} TheAlertsExactly(a: Input, ds: seq<Decision>)
    requires |ds| <= |a.leads|
    ensures AlertsOf(a, ds) == Written(a, ds, 0)
  {
    if ds != [] {
      var n := |ds| - 1;
      TheAlertsExactly(a, ds[..n]);
      WrittenNext(a, ds[..n], ds[n], 0);
      assert ds == ds[..n] + [ds[n]];
      assert Written(a, ds, n + 1) == [];
    }
  }

  /** How many of the decisions are this one. */
  function HowMany(ds: seq<Decision>, d: Decision): nat {
    if ds == [] then 0 else (if ds[0] == d then 1 else 0) + HowMany(ds[1..], d)
  }

  /** How many are transitions that do not alert. */
  function Quiet(ds: seq<Decision>): nat {
    if ds == [] then 0 else (if ds[0].Transition? && !ds[0].alert then 1 else 0) + Quiet(ds[1..])
  }

  lemma {:induction false} OneMoreCounted(ds: seq<Decision>, x: Decision, d: Decision)
    ensures HowMany(ds + [x], d) == HowMany(ds, d) + (if x == d then 1 else 0)
    ensures Quiet(ds + [x]) == Quiet(ds) + (if x.Transition? && !x.alert then 1 else 0)
    decreases |ds|
  {
    if ds == [] {
      assert ([] + [x])[1..] == [];
    } else {
      OneMoreCounted(ds[1..], x, d);
      assert (ds + [x])[1..] == ds[1..] + [x];
    }
  }

  /** A run counts each suppression under its own reason, and each transition that does not alert under the policy. */
  lemma {:induction false} TheCountsExactly(ds: seq<Decision>)
    ensures Tallied(ds) == Counts(HowMany(ds, Suppressed(Undated)), HowMany(ds, Suppressed(OutOfWindow)),
                                  HowMany(ds, Suppressed(NotActionable)), HowMany(ds, Suppressed(AlreadySeen)), Quiet(ds))
  {
    if ds != [] {
      var n := |ds| - 1;
      TheCountsExactly(ds[..n]);
      assert ds == ds[..n] + [ds[n]];
      OneMoreCounted(ds[..n], ds[n], Suppressed(Undated));
      OneMoreCounted(ds[..n], ds[n], Suppressed(OutOfWindow));
      OneMoreCounted(ds[..n], ds[n], Suppressed(NotActionable));
      OneMoreCounted(ds[..n], ds[n], Suppressed(AlreadySeen));
    }
  }
}
