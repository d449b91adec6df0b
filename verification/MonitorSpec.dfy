/**
  Folding a finished run's leads into a tenant's events (web/lib/monitor-events.ts:77-159): which leads are new,
  what each policy alerts, and the cursors that widen a late run's window. Dates are whole days.
*/
module MonitorSpec {
  import opened Common

  type Monitor = nat
  type Source = nat
  type Entity = nat

  const DAY_S := 86400
  const MAX_BACKFILL_DAYS := 90

  datatype EventDate = NoDate | BadDate | OnDay(day: int)

  /** An event: the company, the day and what kind of thing happened. */
  datatype EventKey = EventKey(entity: Entity, day: int, signal: nat)

  /** A lead of a run; `usable` is what the pipeline verified of it, `reachable` its actionability verdict. */
  datatype Lead = Lead(entity: Entity, date: EventDate, dateVerified: bool, signal: nat, source: Source, usable: bool, reachable: bool)

  datatype EventRow = EventRow(monitor: Monitor, firstSeen: int, lastChecked: int, actionableAt: Option<int>, reachableAt: Option<int>)

  datatype Cursor = Cursor(lastEvent: int, lastChecked: int)

  /** A tenant's events and its monitors' cursors. */
  datatype State = State(events: map<EventKey, EventRow>, cursors: map<(Monitor, Source), Cursor>)

  datatype Policy = All | Reachable | NewCompanies
  datatype Kind = NewCompany | NewSignal | NowReachable
  datatype Suppress = Undated | OutOfWindow | NotActionable | AlreadySeen
  datatype Decision = Transition(kind: Kind, alert: bool) | Suppressed(why: Suppress)

  /** A play's window in whole days; 90 when it names none. */
  type Days = w: nat | 0 < w witness 90

  /** One finished run: its monitor, its leads, the policy, the play's window and the time it is folded. */
  datatype Input = Input(monitor: Monitor, leads: seq<Lead>, policy: Policy, windowDays: Days, now: int)

  function Day(now: int): int { now / DAY_S }

  /** The window covers whole days, its cutoff day and today included. */
  predicate InWindow(date: EventDate, windowDays: Days, now: int) {
    date.OnDay? && date.day <= Day(now) && Day(now - windowDays * DAY_S) <= date.day
  }

  function CeilDiv(x: int, n: int): int
    requires 0 < n
  {
    (x + n - 1) / n
  }

  function Max(a: int, b: int): int { if a < b then b else a }
  function Min(a: int, b: int): int { if a < b then a else b }

  /** The window of a run that comes after a gap reaches back to the last check, within a bound. */
  function BackfillDays(windowDays: Days, lastChecked: Option<int>, now: int): (w: Days)
    ensures windowDays <= w
  {
    if lastChecked.None? || lastChecked.value >= now then windowDays
    else
      Max(windowDays, Min(CeilDiv(now - lastChecked.value, DAY_S), Max(windowDays, MAX_BACKFILL_DAYS)))
  }

  /** When a monitor last checked each of its sources. */
  function Checks(cursors: map<(Monitor, Source), Cursor>, m: Monitor): map<Source, int> {
    map k | k in cursors && k.0 == m :: k.1 := cursors[k].lastChecked
  }

  ghost predicate IsLatest(checks: map<Source, int>, at: Option<int>) {
    if at.None? then checks == map[]
    else (exists s :: s in checks && checks[s] == at.value) && forall s :: s in checks ==> checks[s] <= at.value
  }

  /** The days a lead's date may lie back: since its source's last check, or the monitor's latest for a new source. */
  function WindowFor(checks: map<Source, int>, latest: Option<int>, windowDays: Days, s: Source, now: int): (w: Days)
    ensures windowDays <= w
  {
    BackfillDays(windowDays, if s in checks then Some(checks[s]) else latest, now)
  }

  lemma {:induction false} LatestExists(checks: map<Source, int>)
    ensures exists at :: IsLatest(checks, at)
    decreases |checks|
  {
    if checks == map[] {
      assert IsLatest(checks, None);
    } else {
      var s :| s in checks;
      var rest := checks - {s};
      assert |rest.Keys| < |checks.Keys| by { assert rest.Keys == checks.Keys - {s}; }
      LatestExists(rest);
      var at :| IsLatest(rest, at);
      assert forall x :: x in checks <==> x == s || x in rest;
      if at.None? || at.value < checks[s] {
        assert IsLatest(checks, Some(checks[s]));
      } else {
        assert IsLatest(checks, at);
      }
    }
  }

  ghost function Latest(checks: map<Source, int>): (at: Option<int>)
    ensures IsLatest(checks, at)
  {
    LatestExists(checks);
    var at :| IsLatest(checks, at);
    at
  }

  // ----- one lead -----

  function KeyOf(l: Lead): EventKey
    requires l.date.OnDay?
  {
    EventKey(l.entity, l.date.day, l.signal)
  }

  predicate Dated(l: Lead) { l.dateVerified && l.date != NoDate }

  /** The tenant had another actionable event of this company. */
  predicate EntityKnown(events: map<EventKey, EventRow>, key: EventKey) {
    exists k :: k in events && k != key && k.entity == key.entity && events[k].actionableAt.Some?
  }

  function AlertsOn(policy: Policy, kind: Kind, reachable: bool): bool {
    policy == All || (policy == Reachable && reachable) || (policy == NewCompanies && kind == NewCompany)
  }

  /** What a dated lead inside the window is, given the events so far. */
  function Decide(events: map<EventKey, EventRow>, l: Lead, policy: Policy): Decision
    requires l.date.OnDay?
  {
    var key := KeyOf(l);
    if !l.usable then Suppressed(NotActionable)
    else if key !in events || events[key].actionableAt.None? then
      var kind := if EntityKnown(events, key) then NewSignal else NewCompany;
      Transition(kind, AlertsOn(policy, kind, l.reachable))
    else if events[key].reachableAt.None? && l.reachable then Transition(NowReachable, AlertsOn(policy, NowReachable, true))
    else Suppressed(AlreadySeen)
  }

  function FirstSome<T>(a: Option<T>, b: Option<T>): Option<T> { if a.Some? then a else b }

  /** The event's row after the lead: what was recorded first stays. */
  function Recorded(events: map<EventKey, EventRow>, l: Lead, d: Decision, m: Monitor, now: int): EventRow
    requires l.date.OnDay?
  {
    var key := KeyOf(l);
    var actionable := if d.Transition? && d.kind != NowReachable then Some(now) else None;
    var reachable := if d.Transition? && l.reachable then Some(now) else None;
    if key in events then
      events[key].(lastChecked := now, actionableAt := FirstSome(events[key].actionableAt, actionable),
                   reachableAt := FirstSome(events[key].reachableAt, reachable))
    else EventRow(m, now, now, actionable, reachable)
  }

  function Checked(cursors: map<(Monitor, Source), Cursor>, l: Lead, m: Monitor, now: int): Cursor
    requires l.date.OnDay?
  {
    var k := (m, l.source);
    Cursor(if k in cursors && cursors[k].lastEvent >= l.date.day then cursors[k].lastEvent else l.date.day, now)
  }

  /** A lead of a run, folded in: the state after it, and what it was. */
  function FoldLead(st: State, a: Input, l: Lead, windowDays: Days): (State, Decision) {
    if !Dated(l) then (st, Suppressed(Undated))
    else if !InWindow(l.date, windowDays, a.now) then (st, Suppressed(OutOfWindow))
    else
      var d := Decide(st.events, l, a.policy);
      (State(st.events[KeyOf(l) := Recorded(st.events, l, d, a.monitor, a.now)],
             st.cursors[(a.monitor, l.source) := Checked(st.cursors, l, a.monitor, a.now)]), d)
  }

  /** The first n leads of a run, with the windows the cursors gave before it. */
  function FoldLeads(st: State, a: Input, checks: map<Source, int>, latest: Option<int>, n: nat): (State, seq<Decision>)
    requires n <= |a.leads|
  {
    if n == 0 then (st, [])
    else
      var (before, ds) := FoldLeads(st, a, checks, latest, n - 1);
      var l := a.leads[n - 1];
      var (after, d) := FoldLead(before, a, l, WindowFor(checks, latest, a.windowDays, l.source, a.now));
      (after, ds + [d])
  }

  /** One run, folded. */
  ghost function Fold(st: State, a: Input): (State, seq<Decision>) {
    var checks := Checks(st.cursors, a.monitor);
    FoldLeads(st, a, checks, Latest(checks), |a.leads|)
  }
}
