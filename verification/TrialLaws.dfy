/**
  What the trial ledger counts and whom it admits (web/lib/billing/trial-budget.ts:126-276), said of the columns of the
  reservations and of their jobs: the money the ceilings bound is what was spent, or the reserve while that is not known.
*/
module TrialLaws {
  import opened Common
  import opened TrialLedger
  import opened TrialBudget

  type Jobs = map<JobId, Job>

  // ----- the columns -----

  /** The reservation's own job has finished, and the attempt that finished it is the one settled. */
  predicate ScanOver(r: Reservation, jobs: Jobs) {
    match (r.job, r.settledAt, r.settledAttempt)
    case (Some(j), Some(_), Some(attempt)) =>
      && j in jobs && jobs[j].user == r.tenant && jobs[j].attempts == attempt
      && (jobs[j].status == Done || jobs[j].status == Failed)
    case _ => false
  }

  function AtLeastZero(x: Option<real>): real {
    match x case None => 0.0 case Some(v) => if v <= 0.0 then 0.0 else v
  }

  /** A finished scan's recorded spend, a settled read's cost, and the reserve of whatever is neither yet. */
  function Spent(r: Reservation, jobs: Jobs): real {
    match r.kind
    case Scan => if ScanOver(r, jobs) then AtLeastZero(jobs[r.job.value].spend) else r.reserve
    case SiteRead => if r.settledAt != None && r.spent != None then AtLeastZero(r.spent) else r.reserve
  }

  /** Reserved that day; or before it, with work that was not over when the day began. */
  predicate OfDay(r: Reservation, jobs: Jobs, day: int) {
    var midnight := 86400 * day;
    || day == r.day
    || (r.day < day &&
        match r.kind
        case Scan => !ScanOver(r, jobs) || midnight <= r.settledAt.value
        case SiteRead => midnight <= (match r.settledAt case Some(at) => at case None => r.createdAt + 3600))
  }

  /** A scan that failed on its own and recorded no spend. */
  predicate GivenBack(r: Reservation, jobs: Jobs) {
    && r.kind == Scan && ScanOver(r, jobs) && jobs[r.job.value].status == Failed && !jobs[r.job.value].cancelled
    && (jobs[r.job.value].spend == None || jobs[r.job.value].spend == Some(0.0))
  }

  // ----- the sums -----

  function AccountSpend(rows: seq<Reservation>, jobs: Jobs, t: Tenant): real {
    if rows == [] then 0.0
    else var n := |rows| - 1; AccountSpend(rows[..n], jobs, t) + (if rows[n].tenant == t then Spent(rows[n], jobs) else 0.0)
  }

  function DaySpend(rows: seq<Reservation>, jobs: Jobs, day: int): real {
    if rows == [] then 0.0
    else var n := |rows| - 1; DaySpend(rows[..n], jobs, day) + (if OfDay(rows[n], jobs, day) then Spent(rows[n], jobs) else 0.0)
  }

  function ScansTaken(rows: seq<Reservation>, jobs: Jobs, t: Tenant): nat {
    if rows == [] then 0
    else
      var n := |rows| - 1;
      ScansTaken(rows[..n], jobs, t)
      + (if rows[n].tenant == t && rows[n].kind == Scan && !GivenBack(rows[n], jobs) then 1 else 0)
  }

  lemma OneRow(r: Reservation, jobs: Jobs, t: Tenant, day: int)
    ensures Cost(Join(r, jobs)) == Spent(r, jobs)
    ensures CountsToday(Join(r, jobs), day) <==> OfDay(r, jobs, day)
    ensures IsAttempt(Join(r, jobs), t) <==> r.tenant == t && r.kind == Scan && !GivenBack(r, jobs)
  {
  }

  /** The ledger's three sums are these: what the account spent, what the day did, and the scans the account has taken. */
  lemma {:induction false} TheLedgerIsWhatWasSpent(s: State, t: Tenant, day: int)
    ensures TallyOf(Table(s), t, day) ==
      Tally(AccountSpend(s.rows, s.jobs, t), DaySpend(s.rows, s.jobs, day), ScansTaken(s.rows, s.jobs, t))
    decreases |s.rows|
  {
    if s.rows != [] {
      var n := |s.rows| - 1;
      var r, before := s.rows[n], s.(rows := s.rows[..n]);
      TheLedgerIsWhatWasSpent(before, t, day);
      assert Table(s)[..n] == Table(before);
      OneRow(r, s.jobs, t, day);
    }
  }

  // ----- the ceilings, in money spent -----

  /** In every state of every run each account has spent at most its total, and taken at most three scans. */
  lemma NoAccountSpendsMore(cfg: Config, states: seq<State>, steps: seq<Step>, n: nat, t: Tenant)
    requires ValidWallet(cfg) && Run(cfg, states, steps) && n < |states| && cfg.wallet.Some?
    ensures AccountSpend(states[n].rows, states[n].jobs, t) <= cfg.wallet.value.accountTotal + 0.000000001
    ensures ScansTaken(states[n].rows, states[n].jobs, t) <= 3
  {
    AccountsStayWithinCeilings(cfg, states, steps, n);
    TheLedgerIsWhatWasSpent(states[n], t, Day(states[n].now));
    assert AccountCeilings(cfg, states[n]);
    var l := TallyOf(Table(states[n]), t, Day(states[n].now));
    assert l.account <= cfg.wallet.value.accountTotal + TOLERANCE && l.attempts <= TRIAL_SCANS_PER_ACCOUNT;
  }

  /** And what is spent of the current day is within the day's cap, if every admission was timely. */
  lemma NoDaySpendsMore(cfg: Config, states: seq<State>, steps: seq<Step>, n: nat)
    requires ValidWallet(cfg) && Run(cfg, states, steps) && n < |states| && cfg.wallet.Some?
    requires forall i :: 0 <= i < n ==> TimelyStep(states[i], steps[i])
    ensures DaySpend(states[n].rows, states[n].jobs, Day(states[n].now)) <= cfg.wallet.value.globalDaily + 0.000000001
  {
    DaysStayWithinCeiling(cfg, states, steps, n);
    TheLedgerIsWhatWasSpent(states[n], 0, Day(states[n].now));
  }

  // ----- who is admitted -----

  /** Another account of the same company has a reservation. */
  ghost predicate CompanyUsed(cfg: Config, rows: seq<Reservation>, t: Tenant) {
    cfg.company(t) != None && exists r :: r in rows && r.tenant != t && cfg.company(r.tenant) == cfg.company(t)
  }

  lemma CompanyUsedExactly(cfg: Config, rows: seq<Reservation>, t: Tenant)
    ensures SomeoneElseUsed(cfg, rows, t) <==> CompanyUsed(cfg, rows, t)
  {
    if CompanyUsed(cfg, rows, t) {
      var r :| r in rows && r.tenant != t && cfg.company(r.tenant) == cfg.company(t);
      var i :| 0 <= i < |rows| && rows[i] == r;
    }
  }

  /** Five cents for a website read; a scan's as the deployment sets it. */
  function Price(cfg: Config, kind: Kind): Option<real> {
    if kind == SiteRead then Some(0.05) else cfg.scanReserve
  }

  /**
    An admission is refused for the first of these that holds, and else admitted: nothing is configured; the account is
    not Google's; its company used its trial; it has taken three scans; the reserve does not fit what is left of its
    total, or of the day that was read.
  */
  lemma AdmissionExactly(cfg: Config, s: State, kind: Kind, t: Tenant, google: bool, readAt: int)
    ensures
      var why := Admission(cfg, s, kind, t, google, readAt);
      var configured := cfg.wallet != None && Price(cfg, kind) != None;
      && (!configured ==> why == Some(NotConfigured))
      && (configured ==>
            var price, w := Price(cfg, kind).value, cfg.wallet.value;
            why == if !google then Some(GoogleRequired)
                   else if CompanyUsed(cfg, s.rows, t) then Some(DomainUsed)
                   else if ScansTaken(s.rows, s.jobs, t) >= 3 then Some(AttemptsCap)
                   else if AccountSpend(s.rows, s.jobs, t) + price > w.accountTotal + 0.000000001 then Some(AccountTotalCap)
                   else if DaySpend(s.rows, s.jobs, readAt / 86400) + price > w.globalDaily + 0.000000001 then Some(GlobalDailyCap)
                   else None)
  {
    CompanyUsedExactly(cfg, s.rows, t);
    QueryLosesNothing(Table(s), t, Day(readAt));
    TheLedgerIsWhatWasSpent(s, t, Day(readAt));
  }

  /** Admitted, it reserves its price on the day that was read; refused, nothing. */
  lemma AdmittingReserves(cfg: Config, s: State, kind: Kind, id: ReservationId, t: Tenant, google: bool, readAt: int)
    ensures
      var s' := Apply(cfg, s, Admit(kind, id, t, google, readAt));
      if Admission(cfg, s, kind, t, google, readAt) == None && Price(cfg, kind) != None
      then s' == State(s.rows + [Reservation(id, t, None, kind, Price(cfg, kind).value, None, readAt / 86400, readAt, None, None)],
                       s.jobs, s.now)
      else s' == s
  {
  }

  // ----- what the other steps write -----

  /** The same reservations, in the same places, of the same jobs at the same time. */
  predicate SamePlaces(s: State, s': State) {
    |s'.rows| == |s.rows| && s'.jobs == s.jobs && s'.now == s.now
  }

  /** A read is settled once, at its cost, or at its whole reserve when it has none that makes sense. */
  lemma SettlingARead(cfg: Config, s: State, id: ReservationId, t: Tenant, spent: Option<real>, at: int, i: nat)
    requires i < |s.rows|
    ensures
      var s' := Apply(cfg, s, SettleRead(id, t, spent, at));
      var r := s.rows[i];
      && SamePlaces(s, s')
      && s'.rows[i] ==
           if r.id == id && r.tenant == t && r.kind == SiteRead && r.settledAt == None
           then r.(settledAt := Some(at), spent := Some(if spent == None || spent.value < 0.0 then 0.05 else spent.value)) else r
  {
  }

  /** A scan is settled by its job, with the attempt; a reservation is linked once. */
  lemma SettlingAndLinkingAScan(cfg: Config, s: State, id: ReservationId, t: Tenant, job: JobId, attempt: int, at: int, i: nat)
    requires i < |s.rows|
    ensures
      var s' := Apply(cfg, s, SettleScan(job, attempt, at));
      var r := s.rows[i];
      && SamePlaces(s, s')
      && s'.rows[i] == if r.job == Some(job) then r.(settledAt := Some(at), settledAttempt := Some(attempt)) else r
    ensures
      var s' := Apply(cfg, s, Link(id, t, job));
      var r := s.rows[i];
      && SamePlaces(s, s')
      && s'.rows[i] == if r.id == id && r.tenant == t && r.job == None then r.(job := Some(job)) else r
  {
  }

  /** Unsettled, and with no job or only the one that was never made. */
  predicate EndedWithNoScan(r: Reservation, id: ReservationId, t: Tenant, neverCreated: Option<JobId>) {
    r.id == id && r.tenant == t && r.settledAt == None && (r.job == None || r.job == neverCreated)
  }

  function HowOften(rows: seq<Reservation>, r: Reservation): nat {
    if rows == [] then 0 else HowOften(rows[..|rows| - 1], r) + (if rows[|rows| - 1] == r then 1 else 0)
  }

  lemma OneMoreOf(rows: seq<Reservation>, x: Reservation, r: Reservation)
    ensures HowOften(rows + [x], r) == HowOften(rows, r) + (if x == r then 1 else 0)
  {
    assert (rows + [x])[..|rows|] == rows;
  }

  lemma {:induction false} KeptExactly(rows: seq<Reservation>, id: ReservationId, t: Tenant, neverCreated: Option<JobId>,
                                       r: Reservation)
    ensures HowOften(Keep(rows, id, t, neverCreated), r) == if EndedWithNoScan(r, id, t, neverCreated) then 0 else HowOften(rows, r)
  {
    if rows != [] {
      var n := |rows| - 1;
      var kept := Keep(rows[..n], id, t, neverCreated);
      KeptExactly(rows[..n], id, t, neverCreated, r);
      OneMoreOf(kept, rows[n], r);
      assert kept + [] == kept;
    }
  }

  /** A release takes away that reservation and no other, unless its job exists after all. */
  lemma ReleasingTakesOne(cfg: Config, s: State, id: ReservationId, t: Tenant, neverCreated: Option<JobId>, r: Reservation)
    ensures
      var s' := Apply(cfg, s, Release(id, t, neverCreated));
      if neverCreated != None && neverCreated.value in s.jobs then s' == s
      else && s' == s.(rows := s'.rows)
           && HowOften(s'.rows, r) == if EndedWithNoScan(r, id, t, neverCreated) then 0 else HowOften(s.rows, r)
  {
    KeptExactly(s.rows, id, t, neverCreated, r);
  }
}
