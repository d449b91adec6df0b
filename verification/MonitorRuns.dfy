/** What holds over all the runs of all a tenant's monitors (web/lib/monitor-events.ts:95-159). */
module MonitorRuns {
  import opened Common
  import opened MonitorSpec

  /** A lead and what it was decided to be, in the order they were folded. */
  datatype Told = Told(lead: Lead, d: Decision)

  predicate IsTransition(x: Told) { x.d.Transition? && x.lead.date.OnDay? }

  /**
    Two transitions of one event are its first as new and a later now-reachable; and a company is new once. So an
    event has at most one of each, in that order.
  */
  ghost predicate OnceEach(trace: seq<Told>) {
    && (forall i, j :: 0 <= i < j < |trace| && IsTransition(trace[i]) && IsTransition(trace[j]) && KeyOf(trace[i].lead) == KeyOf(trace[j].lead) ==>
          trace[i].d.kind != NowReachable && trace[j].d.kind == NowReachable)
    && (forall i, j :: 0 <= i < j < |trace| && IsTransition(trace[i]) && IsTransition(trace[j]) && trace[i].lead.entity == trace[j].lead.entity ==>
          !(trace[i].d.kind == NewCompany && trace[j].d.kind == NewCompany))
  }

  /** The events hold every transition of the trace. */
  ghost predicate Holds(events: map<EventKey, EventRow>, x: Told) {
    IsTransition(x) ==>
      && KeyOf(x.lead) in events && events[KeyOf(x.lead)].actionableAt.Some?
      && (x.d.kind == NowReachable ==> events[KeyOf(x.lead)].reachableAt.Some?)
  }

  ghost predicate Consistent(st: State, trace: seq<Told>) {
    OnceEach(trace) && forall i :: 0 <= i < |trace| ==> Holds(st.events, trace[i])
  }

  /** What is recorded of an event is never taken back. */
  lemma FoldingKeeps(st: State, a: Input, l: Lead, w: Days, k: EventKey)
    requires k in st.events
    ensures
      var events' := FoldLead(st, a, l, w).0.events;
      && k in events'
      && (st.events[k].actionableAt.Some? ==> events'[k].actionableAt == st.events[k].actionableAt)
      && (st.events[k].reachableAt.Some? ==> events'[k].reachableAt == st.events[k].reachableAt)
  {
  }

  lemma ALeadIsConsistent(st: State, a: Input, l: Lead, w: Days, trace: seq<Told>)
    requires Consistent(st, trace)
    ensures
      var (st', d) := FoldLead(st, a, l, w);
      Consistent(st', trace + [Told(l, d)])
  {
  }

  function Trace(leads: seq<Lead>, ds: seq<Decision>): seq<Told>
    requires |ds| <= |leads|
  {
    seq(|ds|, i requires 0 <= i < |ds| => Told(leads[i], ds[i]))
  }

  lemma {:induction false} LeadsAreConsistent(st: State, a: Input, checks: map<Source, int>, latest: Option<int>, n: nat, trace: seq<Told>)
    requires n <= |a.leads| && Consistent(st, trace)
    ensures
      var (st', ds) := FoldLeads(st, a, checks, latest, n);
      |ds| == n && Consistent(st', trace + Trace(a.leads, ds))
  {
    var (st', ds) := FoldLeads(st, a, checks, latest, n);
    if n == 0 {
      assert trace + Trace(a.leads, ds) == trace;
    } else {
      var (before, ds0) := FoldLeads(st, a, checks, latest, n - 1);
      LeadsAreConsistent(st, a, checks, latest, n - 1, trace);
      var l := a.leads[n - 1];
      ALeadIsConsistent(before, a, l, WindowFor(checks, latest, a.windowDays, l.source, a.now), trace + Trace(a.leads, ds0));
      assert trace + Trace(a.leads, ds) == trace + Trace(a.leads, ds0) + [Told(l, ds[n - 1])];
    }
  }

  lemma {:induction false} OneDecisionPerLead(st: State, a: Input, checks: map<Source, int>, latest: Option<int>, n: nat)
    requires n <= |a.leads|
    ensures |FoldLeads(st, a, checks, latest, n).1| == n
  {
    if n > 0 { OneDecisionPerLead(st, a, checks, latest, n - 1); }
  }

  /** All the runs of all the tenant's monitors, one after another. */
  ghost function FoldAll(st: State, runs: seq<Input>): (State, seq<Told>) {
    if runs == [] then (st, [])
    else
      var n := |runs| - 1;
      var (before, trace) := FoldAll(st, runs[..n]);
      var (after, ds) := Fold(before, runs[n]);
      OneDecisionPerLead(before, runs[n], Checks(before.cursors, runs[n].monitor), Latest(Checks(before.cursors, runs[n].monitor)), |runs[n].leads|);
      (after, trace + Trace(runs[n].leads, ds))
  }

  /**
    Over all runs of all monitors, whatever their policies and times: each event is new at most once and then
    now-reachable at most once, and each company is new at most once.
  */
  lemma {:induction false} NothingIsNewTwice(st: State, runs: seq<Input>)
    ensures Consistent(FoldAll(st, runs).0, FoldAll(st, runs).1)
  {
    if runs != [] {
      var n := |runs| - 1;
      NothingIsNewTwice(st, runs[..n]);
      var (before, trace) := FoldAll(st, runs[..n]);
      var checks := Checks(before.cursors, runs[n].monitor);
      LeadsAreConsistent(before, runs[n], checks, Latest(checks), |runs[n].leads|, trace);
    }
  }

  // ----- the policy filters alerts and nothing else -----

  /** The same decision but for the alert, which the first raises only if the second does. */
  predicate Quieter(d: Decision, e: Decision) {
    if d.Transition? then e.Transition? && d.kind == e.kind && (d.alert ==> e.alert) else d == e
  }

  lemma {:induction false} LeadsUnderAll(st: State, a: Input, checks: map<Source, int>, latest: Option<int>, n: nat)
    requires n <= |a.leads|
    ensures
      var (s, ds) := FoldLeads(st, a, checks, latest, n);
      var (s', es) := FoldLeads(st, a.(policy := All), checks, latest, n);
      s == s' && |ds| == |es| == n && forall i :: 0 <= i < n ==> Quieter(ds[i], es[i])
  {
    if n > 0 { LeadsUnderAll(st, a, checks, latest, n - 1); }
  }

  lemma RunUnderAll(st: State, a: Input)
    ensures
      var (s, ds) := Fold(st, a);
      var (s', es) := Fold(st, a.(policy := All));
      s == s' && |ds| == |es| == |a.leads| && forall i :: 0 <= i < |ds| ==> Quieter(ds[i], es[i])
  {
    var checks := Checks(st.cursors, a.monitor);
    LeadsUnderAll(st, a, checks, Latest(checks), |a.leads|);
  }

  function UnderAll(runs: seq<Input>): seq<Input> {
    seq(|runs|, i requires 0 <= i < |runs| => runs[i].(policy := All))
  }

  /** The same leads, each with a quieter decision. */
  ghost predicate QuieterTrace(trace: seq<Told>, trace': seq<Told>) {
    |trace| == |trace'| && forall i :: 0 <= i < |trace| ==> trace[i].lead == trace'[i].lead && Quieter(trace[i].d, trace'[i].d)
  }

  lemma QuieterTogether(a: seq<Told>, a': seq<Told>, b: seq<Told>, b': seq<Told>)
    requires QuieterTrace(a, a') && QuieterTrace(b, b')
    ensures QuieterTrace(a + b, a' + b')
  {
  }

  /**
    Runs folded under any policies leave the events and cursors they would leave under 'all', and alert on nothing
    that 'all' would not.
  */
  lemma {:induction false} PoliciesDoNotInterfere(st: State, runs: seq<Input>)
    ensures
      var (s, trace) := FoldAll(st, runs);
      var (s', trace') := FoldAll(st, UnderAll(runs));
      s == s' && QuieterTrace(trace, trace')
  {
    if runs != [] {
      var n := |runs| - 1;
      assert UnderAll(runs)[..n] == UnderAll(runs[..n]);
      PoliciesDoNotInterfere(st, runs[..n]);
      var (before, trace) := FoldAll(st, runs[..n]);
      RunUnderAll(before, runs[n]);
      QuieterTogether(trace, FoldAll(st, UnderAll(runs[..n])).1,
                      Trace(runs[n].leads, Fold(before, runs[n]).1), Trace(runs[n].leads, Fold(before, UnderAll(runs)[n]).1));
    }
  }

  // ----- folding a run again -----

  /** Nothing more can be decided of a lead in this window: it is not dated, outside, unusable, or recorded in full. */
  ghost predicate Spent(events: map<EventKey, EventRow>, l: Lead, w: Days, now: int) {
    Dated(l) && InWindow(l.date, w, now) && l.usable ==>
      && KeyOf(l) in events && events[KeyOf(l)].actionableAt.Some?
      && (l.reachable ==> events[KeyOf(l)].reachableAt.Some?)
  }

  lemma {:induction false} FoldedLeadsAreSpent(st: State, a: Input, checks: map<Source, int>, latest: Option<int>, n: nat, i: nat)
    requires i < n <= |a.leads|
    ensures Spent(FoldLeads(st, a, checks, latest, n).0.events, a.leads[i],
                  WindowFor(checks, latest, a.windowDays, a.leads[i].source, a.now), a.now)
  {
    var l := a.leads[n - 1];
    var before := FoldLeads(st, a, checks, latest, n - 1).0;
    var w := WindowFor(checks, latest, a.windowDays, l.source, a.now);
    if i < n - 1 {
      FoldedLeadsAreSpent(st, a, checks, latest, n - 1, i);
      var x := a.leads[i];
      if x.date.OnDay? && KeyOf(x) in before.events { FoldingKeeps(before, a, l, w, KeyOf(x)); }
    }
  }

  /** A wider window holds every day a narrower one does. */
  lemma WindowsGrow(date: EventDate, w: Days, w': Days, now: int)
    requires w <= w' && InWindow(date, w, now)
    ensures InWindow(date, w', now)
  {
  }

  /** After a run each cursor of its monitor is where it was or at the run's own time. */
  lemma {:induction false} CursorsAdvance(st: State, a: Input, checks: map<Source, int>, latest: Option<int>, n: nat, s: Source)
    requires n <= |a.leads|
    ensures
      var after := FoldLeads(st, a, checks, latest, n).0.cursors;
      && ((a.monitor, s) in st.cursors ==> (a.monitor, s) in after)
      && ((a.monitor, s) in after && after[(a.monitor, s)].lastChecked != a.now ==>
            (a.monitor, s) in st.cursors && after[(a.monitor, s)].lastChecked == st.cursors[(a.monitor, s)].lastChecked)
  {
    if n > 0 { CursorsAdvance(st, a, checks, latest, n - 1, s); }
  }

  /** So folding it again at the same time looks no further back. */
  lemma RefoldingIsNoWider(checks: map<Source, int>, latest: Option<int>, checks': map<Source, int>, latest': Option<int>, a: Input, s: Source)
    requires IsLatest(checks, latest) && IsLatest(checks', latest')
    requires forall x :: x in checks ==> x in checks'
    requires forall x :: x in checks' ==> checks'[x] == a.now || (x in checks && checks'[x] == checks[x])
    ensures WindowFor(checks', latest', a.windowDays, s, a.now) <= WindowFor(checks, latest, a.windowDays, s, a.now)
  {
  }

  /** A run whose leads are all spent decides no transition and leaves them so. */
  lemma {:induction false} SpentLeadsDecideNothing(st: State, a: Input, checks: map<Source, int>, latest: Option<int>, n: nat)
    requires n <= |a.leads|
    requires forall i :: 0 <= i < |a.leads| ==> Spent(st.events, a.leads[i], WindowFor(checks, latest, a.windowDays, a.leads[i].source, a.now), a.now)
    ensures
      var (st', ds) := FoldLeads(st, a, checks, latest, n);
      && |ds| == n && (forall i :: 0 <= i < n ==> ds[i].Suppressed?)
      && forall i :: 0 <= i < |a.leads| ==> Spent(st'.events, a.leads[i], WindowFor(checks, latest, a.windowDays, a.leads[i].source, a.now), a.now)
  {
    if n > 0 {
      SpentLeadsDecideNothing(st, a, checks, latest, n - 1);
      var l := a.leads[n - 1];
      var before := FoldLeads(st, a, checks, latest, n - 1).0;
      var w := WindowFor(checks, latest, a.windowDays, l.source, a.now);
      forall i | 0 <= i < |a.leads|
        ensures Spent(FoldLead(before, a, l, w).0.events, a.leads[i], WindowFor(checks, latest, a.windowDays, a.leads[i].source, a.now), a.now)
      {
        var x := a.leads[i];
        if x.date.OnDay? && KeyOf(x) in before.events { FoldingKeeps(before, a, l, w, KeyOf(x)); }
      }
    }
  }

  /** A run folded twice at the same time alerts nothing the second time. */
  lemma ARefoldAlertsNothing(st: State, a: Input)
    ensures forall i :: 0 <= i < |Fold(Fold(st, a).0, a).1| ==> Fold(Fold(st, a).0, a).1[i].Suppressed?
  {
    var checks := Checks(st.cursors, a.monitor);
    var once := Fold(st, a).0;
    var checks' := Checks(once.cursors, a.monitor);
    forall s: Source ensures s in checks ==> s in checks'
      ensures s in checks' ==> checks'[s] == a.now || (s in checks && checks'[s] == checks[s])
    {
      CursorsAdvance(st, a, checks, Latest(checks), |a.leads|, s);
      assert s in checks <==> (a.monitor, s) in st.cursors;
      assert s in checks' <==> (a.monitor, s) in once.cursors;
    }
    forall i | 0 <= i < |a.leads|
      ensures Spent(once.events, a.leads[i], WindowFor(checks', Latest(checks'), a.windowDays, a.leads[i].source, a.now), a.now)
    {
      var l := a.leads[i];
      FoldedLeadsAreSpent(st, a, checks, Latest(checks), |a.leads|, i);
      RefoldingIsNoWider(checks, Latest(checks), checks', Latest(checks'), a, l.source);
      var w, w' := WindowFor(checks, Latest(checks), a.windowDays, l.source, a.now), WindowFor(checks', Latest(checks'), a.windowDays, l.source, a.now);
      if InWindow(l.date, w', a.now) { WindowsGrow(l.date, w', w, a.now); }
    }
    SpentLeadsDecideNothing(once, a, checks', Latest(checks'), |a.leads|);
  }

  // ----- missed runs -----

  /**
    However late a run is, up to the backfill's bound, it still sees every event dated on or after the day its
    source was last checked.
  */
  lemma BackfillMissesNothing(checks: map<Source, int>, latest: Option<int>, a: Input, l: Lead)
    requires l.source in checks && checks[l.source] <= a.now && a.now - checks[l.source] <= MAX_BACKFILL_DAYS * DAY_S
    requires l.date.OnDay? && Day(checks[l.source]) <= l.date.day <= Day(a.now)
    ensures InWindow(l.date, WindowFor(checks, latest, a.windowDays, l.source, a.now), a.now)
  {
  }
}
