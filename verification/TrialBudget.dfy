/**
  The free-trial budget as a machine (web/lib/billing/trial-budget.ts:174-276): every admission holds the
  budget's one lock row, so each is one step; settling, linking, releasing, the scan runner and the clock are
  the other steps. An admission reads the clock before it waits for the lock.
*/
module TrialBudget {
  import opened Common
  import opened TrialLedger

  type Domain = nat

  const TRIAL_SCANS_PER_ACCOUNT := 3
  const SITE_READ_RESERVE: real := 0.05
  const TOLERANCE: real := 0.000000001

  datatype Wallet = Wallet(accountTotal: real, globalDaily: real)

  /**
    The deployment's settings, and each user's company email domain (none for a consumer mailbox). A scan needs
    its reserve set as well as the wallet.
  */
  datatype Config = Config(wallet: Option<Wallet>, scanReserve: Option<real>, company: Tenant -> Option<Domain>)

  datatype State = State(rows: seq<Reservation>, jobs: map<JobId, Job>, now: int)

  datatype Refusal = NotConfigured | GoogleRequired | DomainUsed | AttemptsCap | AccountTotalCap | GlobalDailyCap

  function Join(r: Reservation, jobs: map<JobId, Job>): LedgerRow {
    LedgerRow(r, if r.job.Some? && r.job.value in jobs && jobs[r.job.value].user == r.tenant then Some(jobs[r.job.value]) else None)
  }

  function Table(s: State): seq<LedgerRow> {
    seq(|s.rows|, i requires 0 <= i < |s.rows| => Join(s.rows[i], s.jobs))
  }

  predicate SomeoneElseUsed(cfg: Config, rows: seq<Reservation>, t: Tenant) {
    cfg.company(t).Some? && exists i :: 0 <= i < |rows| && rows[i].tenant != t && cfg.company(rows[i].tenant) == cfg.company(t)
  }

  /** The checks, in their order. */
  function Refused(cfg: Config, w: Wallet, s: State, t: Tenant, google: bool, day: int, reserve: real): Option<Refusal> {
    if !google then Some(GoogleRequired) else
    if SomeoneElseUsed(cfg, s.rows, t) then Some(DomainUsed) else
    var l := TallyOf(Selected(Table(s), t, day), t, day);
    if l.attempts >= TRIAL_SCANS_PER_ACCOUNT then Some(AttemptsCap) else
    if l.account + reserve > w.accountTotal + TOLERANCE then Some(AccountTotalCap) else
    if l.today + reserve > w.globalDaily + TOLERANCE then Some(GlobalDailyCap) else None
  }

  datatype Step =
    | Admit(kind: Kind, id: ReservationId, t: Tenant, google: bool, readAt: int)
    | SettleRead(id: ReservationId, t: Tenant, spent: Option<real>, at: int)
    | SettleScan(job: JobId, attempt: int, at: int)
    | Link(id: ReservationId, t: Tenant, job: JobId)
    | Release(id: ReservationId, t: Tenant, neverCreated: Option<JobId>)
    | RunJobs(jobs: map<JobId, Job>)
    | Tick(now: int)

  function NewReservation(kind: Kind, id: ReservationId, t: Tenant, reserve: real, readAt: int): Reservation {
    Reservation(id, t, None, kind, reserve, None, Day(readAt), readAt, None, None)
  }

  function ReserveFor(cfg: Config, kind: Kind): Option<real> {
    if cfg.wallet.None? then None else if kind == SiteRead then Some(SITE_READ_RESERVE) else cfg.scanReserve
  }

  function Admission(cfg: Config, s: State, kind: Kind, t: Tenant, google: bool, readAt: int): Option<Refusal> {
    var reserve := ReserveFor(cfg, kind);
    if reserve.None? then Some(NotConfigured)
    else Refused(cfg, cfg.wallet.value, s, t, google, Day(readAt), reserve.value)
  }

  /** A read's cost, or its whole reserve for a failed call or no usable cost. */
  function ReadCost(spent: Option<real>): real {
    if spent.Some? && spent.value >= 0.0 then spent.value else SITE_READ_RESERVE
  }

  function SettleReadRow(r: Reservation, id: ReservationId, t: Tenant, spent: Option<real>, at: int): Reservation {
    if r.id == id && r.tenant == t && r.kind == SiteRead && r.settledAt.None?
    then r.(settledAt := Some(at), spent := Some(ReadCost(spent))) else r
  }

  function SettleScanRow(r: Reservation, job: JobId, attempt: int, at: int): Reservation {
    if r.job == Some(job) then r.(settledAt := Some(at), settledAttempt := Some(attempt)) else r
  }

  function LinkRow(r: Reservation, id: ReservationId, t: Tenant, job: JobId): Reservation {
    if r.id == id && r.tenant == t && r.job.None? then r.(job := Some(job)) else r
  }

  /** A reservation that ended with no scan: unsettled, and linked to no job or to the one never created. */
  predicate Releases(r: Reservation, id: ReservationId, t: Tenant, neverCreated: Option<JobId>) {
    r.id == id && r.tenant == t && r.settledAt.None? && (r.job.None? || r.job == neverCreated)
  }

  function Keep(rows: seq<Reservation>, id: ReservationId, t: Tenant, neverCreated: Option<JobId>): seq<Reservation> {
    if rows == [] then []
    else var n := |rows| - 1;
         Keep(rows[..n], id, t, neverCreated) + (if Releases(rows[n], id, t, neverCreated) then [] else [rows[n]])
  }

  function Apply(cfg: Config, s: State, step: Step): State {
    match step
    case Admit(kind, id, t, google, readAt) =>
      if Admission(cfg, s, kind, t, google, readAt).Some? then s
      else s.(rows := s.rows + [NewReservation(kind, id, t, ReserveFor(cfg, kind).value, readAt)])
    case SettleRead(id, t, spent, at) =>
      s.(rows := seq(|s.rows|, i requires 0 <= i < |s.rows| => SettleReadRow(s.rows[i], id, t, spent, at)))
    case SettleScan(job, attempt, at) =>
      s.(rows := seq(|s.rows|, i requires 0 <= i < |s.rows| => SettleScanRow(s.rows[i], job, attempt, at)))
    case Link(id, t, job) =>
      s.(rows := seq(|s.rows|, i requires 0 <= i < |s.rows| => LinkRow(s.rows[i], id, t, job)))
    case Release(id, t, neverCreated) =>
      if neverCreated.Some? && neverCreated.value in s.jobs then s
      else s.(rows := Keep(s.rows, id, t, neverCreated))
    case RunJobs(jobs) => s.(jobs := jobs)
    case Tick(now) => s.(now := now)
  }

  // ----- what the rest of the system is assumed to do -----

  /** The job's recorded spend is at most the reserve. */
  predicate SpendFits(x: LedgerRow) {
    x.job.Some? ==> Spend(x.job.value) <= x.r.reserve
  }

  /**
    The clock never goes back; a read settles within its grace and at most its reserve; only scans are linked; a
    scan that has settled is not settled again, and the runner leaves its job as it is; what a scan records as
    spent fits its reserve.
  */
  ghost predicate Allowed(s: State, step: Step) {
    match step
    case Admit(_, _, _, _, readAt) => readAt <= s.now
    case SettleRead(id, t, spent, at) =>
      forall r :: r in s.rows && r.id == id && r.tenant == t && r.kind == SiteRead && r.settledAt.None?
        ==> at <= r.createdAt + READ_GRACE_S && ReadCost(spent) <= r.reserve
    case SettleScan(job, attempt, at) =>
      forall r :: r in s.rows && r.job == Some(job) ==> !Settled(Join(r, s.jobs)) && SpendFits(Join(r, s.jobs))
    case Link(id, t, job) => forall r :: r in s.rows && r.id == id && r.tenant == t ==> r.kind == Scan
    case Release(_, _, _) => true
    case RunJobs(jobs) =>
      forall r :: r in s.rows && r.kind == Scan ==>
        && (Settled(Join(r, s.jobs)) ==> Join(r, jobs) == Join(r, s.jobs))
        && SpendFits(Join(r, jobs))
    case Tick(now) => s.now <= now
  }

  // ----- the ceilings -----

  predicate SoundRow(r: Reservation, now: int) {
    && 0.0 < r.reserve && r.day <= Day(now)
    && (r.kind == SiteRead ==> r.job.None?)
    && (r.kind == Scan && r.job.None? ==> r.settledAt.None?)
  }

  ghost predicate SoundRows(s: State) {
    forall r :: r in s.rows ==> SoundRow(r, s.now)
  }

  /** An account's cost and attempts stay within its ceilings. */
  ghost predicate AccountCeilings(cfg: Config, s: State) {
    cfg.wallet.Some? ==> forall t ::
      var l := TallyOf(Table(s), t, Day(s.now));
      l.account <= cfg.wallet.value.accountTotal + TOLERANCE && l.attempts <= TRIAL_SCANS_PER_ACCOUNT
  }

  /** What counts toward the current day stays within the day's ceiling. */
  predicate DayCeiling(cfg: Config, s: State) {
    cfg.wallet.Some? ==> TallyOf(Table(s), 0, Day(s.now)).today <= cfg.wallet.value.globalDaily + TOLERANCE
  }

  /** A company's trial belongs to one account. */
  ghost predicate OneAccountPerCompany(cfg: Config, s: State) {
    forall i, j :: 0 <= i < |s.rows| && 0 <= j < |s.rows| ==>
      cfg.company(s.rows[i].tenant).Some? && cfg.company(s.rows[i].tenant) == cfg.company(s.rows[j].tenant) ==>
      s.rows[i].tenant == s.rows[j].tenant
  }

  /** The day's sum is nobody's in particular. */
  lemma {:induction false} TodayIsGlobal(rows: seq<LedgerRow>, t: Tenant, u: Tenant, day: int)
    ensures TallyOf(rows, t, day).today == TallyOf(rows, u, day).today
  {
    if rows != [] { TodayIsGlobal(rows[..|rows| - 1], t, u, day); }
  }

  // ----- every step but an admission counts for no more than before -----

  predicate Reprices(step: Step) { !step.Admit? && !step.Release? }

  lemma RowRecedes(cfg: Config, s: State, step: Step, i: nat)
    requires Reprices(step) && Allowed(s, step) && SoundRows(s) && i < |s.rows|
    ensures
      var s' := Apply(cfg, s, step);
      && |s'.rows| == |s.rows| && SoundRow(s'.rows[i], s'.now) && s'.rows[i].tenant == s.rows[i].tenant
      && Recedes(Table(s)[i], Table(s')[i], Day(s.now), Day(s'.now))
  {
    var r := s.rows[i];
    assert r in s.rows && SoundRow(r, s.now);
    if step.Tick? { DaysPass(Table(s)[i], s.now, step.now); }
  }

  /** What counts on a later day counted before: a scan still running, or work that ended after that midnight. */
  lemma DaysPass(x: LedgerRow, now: int, now': int)
    requires now <= now' && x.r.day <= Day(now)
    ensures CountsToday(x, Day(now')) ==> CountsToday(x, Day(now))
  {
  }

  lemma RepricingKeeps(cfg: Config, s: State, step: Step)
    requires Reprices(step) && Allowed(s, step) && SoundRows(s)
    ensures
      var s' := Apply(cfg, s, step);
      && SoundRows(s')
      && (OneAccountPerCompany(cfg, s) ==> OneAccountPerCompany(cfg, s'))
      && forall t :: AtMost(TallyOf(Table(s'), t, Day(s'.now)), TallyOf(Table(s), t, Day(s.now)))
  {
    var s' := Apply(cfg, s, step);
    forall i | 0 <= i < |s.rows|
      ensures SoundRow(s'.rows[i], s'.now) && s'.rows[i].tenant == s.rows[i].tenant
      ensures Recedes(Table(s)[i], Table(s')[i], Day(s.now), Day(s'.now))
    {
      RowRecedes(cfg, s, step, i);
    }
    forall t ensures AtMost(TallyOf(Table(s'), t, Day(s'.now)), TallyOf(Table(s), t, Day(s.now))) {
      TallyRecedes(Table(s), Table(s'), t, Day(s.now), Day(s'.now));
    }
  }

  lemma {:induction false} KeepIsPart(rows: seq<Reservation>, id: ReservationId, t: Tenant, neverCreated: Option<JobId>)
    ensures forall r :: r in Keep(rows, id, t, neverCreated) ==> r in rows
  {
    if rows != [] { KeepIsPart(rows[..|rows| - 1], id, t, neverCreated); }
  }

  lemma TableOfMore(s: State, rows: seq<Reservation>, r: Reservation, u: Tenant, day: int)
    ensures TallyOf(Table(s.(rows := rows + [r])), u, day) == Plus(TallyOf(Table(s.(rows := rows)), u, day), Join(r, s.jobs), u, day)
  {
    assert Table(s.(rows := rows + [r])) == Table(s.(rows := rows)) + [Join(r, s.jobs)];
    TallyAppend(Table(s.(rows := rows)), Join(r, s.jobs), u, day);
  }

  lemma {:induction false} KeepRecedes(s: State, rows: seq<Reservation>, id: ReservationId, t: Tenant,
                                       neverCreated: Option<JobId>, u: Tenant)
    requires forall r :: r in rows ==> SoundRow(r, s.now)
    ensures AtMost(TallyOf(Table(s.(rows := Keep(rows, id, t, neverCreated))), u, Day(s.now)),
                   TallyOf(Table(s.(rows := rows)), u, Day(s.now)))
  {
    if rows != [] {
      var n := |rows| - 1;
      var r, kept := rows[n], Keep(rows[..n], id, t, neverCreated);
      KeepRecedes(s, rows[..n], id, t, neverCreated, u);
      assert SoundRow(r, s.now) && rows == rows[..n] + [r];
      TableOfMore(s, rows[..n], r, u, Day(s.now));
      if Releases(r, id, t, neverCreated) {
        assert Keep(rows, id, t, neverCreated) == kept;
      } else {
        TableOfMore(s, kept, r, u, Day(s.now));
      }
    }
  }

  lemma ReleaseKeeps(s: State, id: ReservationId, t: Tenant, neverCreated: Option<JobId>, u: Tenant)
    requires SoundRows(s)
    ensures
      var s' := s.(rows := Keep(s.rows, id, t, neverCreated));
      && (forall r :: r in s'.rows ==> r in s.rows)
      && AtMost(TallyOf(Table(s'), u, Day(s.now)), TallyOf(Table(s), u, Day(s.now)))
  {
    KeepIsPart(s.rows, id, t, neverCreated);
    KeepRecedes(s, s.rows, id, t, neverCreated, u);
    assert s.(rows := s.rows) == s;
  }

  // ----- an admission -----

  predicate Admits(cfg: Config, s: State, step: Step) {
    step.Admit? && Admission(cfg, s, step.kind, step.t, step.google, step.readAt).None?
  }

  /** What an admission adds to every sum, on any day. */
  lemma AdmissionAdds(cfg: Config, s: State, step: Step, u: Tenant, day: int)
    requires Admits(cfg, s, step)
    ensures
      var r := NewReservation(step.kind, step.id, step.t, ReserveFor(cfg, step.kind).value, step.readAt);
      TallyOf(Table(Apply(cfg, s, step)), u, day) == Plus(TallyOf(Table(s), u, day), Join(r, s.jobs), u, day)
  {
    var r := NewReservation(step.kind, step.id, step.t, ReserveFor(cfg, step.kind).value, step.readAt);
    assert Table(Apply(cfg, s, step)) == Table(s) + [Join(r, s.jobs)];
    TallyAppend(Table(s), Join(r, s.jobs), u, day);
  }

  ghost predicate ValidConfig(cfg: Config) {
    cfg.scanReserve.Some? ==> 0.0 < cfg.scanReserve.value
  }

  ghost predicate Sound(cfg: Config, s: State) {
    ValidConfig(cfg) && SoundRows(s) && AccountCeilings(cfg, s) && OneAccountPerCompany(cfg, s)
  }

  lemma {:induction false} AccountHasNoDay(rows: seq<LedgerRow>, t: Tenant, day: int, day': int)
    ensures TallyOf(rows, t, day).account == TallyOf(rows, t, day').account
    ensures TallyOf(rows, t, day).attempts == TallyOf(rows, t, day').attempts
  {
    if rows != [] { AccountHasNoDay(rows[..|rows| - 1], t, day, day'); }
  }

  /** An admission keeps every account within its ceilings, whatever time it read. */
  lemma AdmissionKeeps(cfg: Config, s: State, step: Step)
    requires Admits(cfg, s, step) && Allowed(s, step) && Sound(cfg, s)
    ensures Sound(cfg, Apply(cfg, s, step))
  {
    var s' := Apply(cfg, s, step);
    var today, day := Day(s.now), Day(step.readAt);
    QueryLosesNothing(Table(s), step.t, day);
    AccountHasNoDay(Table(s), step.t, day, today);
    forall u ensures
      var l := TallyOf(Table(s'), u, today);
      l.account <= cfg.wallet.value.accountTotal + TOLERANCE && l.attempts <= TRIAL_SCANS_PER_ACCOUNT
    {
      AdmissionAdds(cfg, s, step, u, today);
    }
    assert step.readAt <= s.now && day <= today;
  }

  lemma StepKeepsAccounts(cfg: Config, s: State, step: Step)
    requires Sound(cfg, s) && Allowed(s, step)
    ensures Sound(cfg, Apply(cfg, s, step))
  {
    if Admits(cfg, s, step) {
      AdmissionKeeps(cfg, s, step);
    } else if step.Release? {
      forall u | true ensures AtMost(TallyOf(Table(Apply(cfg, s, step)), u, Day(s.now)), TallyOf(Table(s), u, Day(s.now))) {
        ReleaseKeeps(s, step.id, step.t, step.neverCreated, u);
      }
      ReleaseKeeps(s, step.id, step.t, step.neverCreated, 0);
      ReleaseKeepsCompanies(cfg, s, step);
    } else if !step.Admit? {
      RepricingKeeps(cfg, s, step);
    }
  }

  lemma ReleaseKeepsCompanies(cfg: Config, s: State, step: Step)
    requires step.Release? && SoundRows(s) && OneAccountPerCompany(cfg, s)
    ensures OneAccountPerCompany(cfg, Apply(cfg, s, step))
  {
    var s' := Apply(cfg, s, step);
    ReleaseKeeps(s, step.id, step.t, step.neverCreated, 0);
    forall i, j | 0 <= i < |s'.rows| && 0 <= j < |s'.rows| && cfg.company(s'.rows[i].tenant).Some?
        && cfg.company(s'.rows[i].tenant) == cfg.company(s'.rows[j].tenant)
      ensures s'.rows[i].tenant == s'.rows[j].tenant
    {
      assert s'.rows[i] in s.rows && s'.rows[j] in s.rows;
      var i' :| 0 <= i' < |s.rows| && s.rows[i'] == s'.rows[i];
      var j' :| 0 <= j' < |s.rows| && s.rows[j'] == s'.rows[j];
    }
  }

  // ----- the day's ceiling -----

  /**
    The room left today when the transaction runs. An admission that read the clock on an earlier day checked
    that day's room, and its reservation still counts today.
  */
  predicate HasRoomToday(cfg: Config, s: State, step: Step) {
    Admits(cfg, s, step) ==>
      var reserve := ReserveFor(cfg, step.kind).value;
      var r := NewReservation(step.kind, step.id, step.t, reserve, step.readAt);
      TallyOf(Table(s), 0, Day(s.now)).today + (if CountsToday(Join(r, s.jobs), Day(s.now)) then reserve else 0.0)
        <= cfg.wallet.value.globalDaily + TOLERANCE
  }

  /** Read on this day; or a site read from so long before midnight that its grace ended on the day it was read. */
  predicate Timely(kind: Kind, readAt: int, now: int) {
    || Day(readAt) == Day(now)
    || (kind == SiteRead && readAt + READ_GRACE_S < Day(now) * DAY_S)
  }

  predicate TimelyStep(s: State, step: Step) {
    step.Admit? ==> Timely(step.kind, step.readAt, s.now)
  }

  /** Such an admission has that room. */
  lemma TimelyAdmissionsHaveRoom(cfg: Config, s: State, step: Step)
    requires TimelyStep(s, step) && Allowed(s, step) && DayCeiling(cfg, s)
    ensures HasRoomToday(cfg, s, step)
  {
    if Admits(cfg, s, step) && Day(step.readAt) == Day(s.now) {
      QueryLosesNothing(Table(s), step.t, Day(step.readAt));
      TodayIsGlobal(Table(s), step.t, 0, Day(s.now));
    }
  }

  /** A step keeps the day's ceiling if and only if there is room for it today. */
  lemma StepKeepsTheDay(cfg: Config, s: State, step: Step)
    requires Sound(cfg, s) && DayCeiling(cfg, s) && Allowed(s, step)
    ensures DayCeiling(cfg, Apply(cfg, s, step)) <==> HasRoomToday(cfg, s, step)
  {
    if Admits(cfg, s, step) {
      AdmissionAdds(cfg, s, step, 0, Day(s.now));
    } else if step.Release? {
      ReleaseKeeps(s, step.id, step.t, step.neverCreated, 0);
    } else if !step.Admit? {
      RepricingKeeps(cfg, s, step);
    }
  }

  // ----- whole runs -----

  ghost predicate Run(cfg: Config, states: seq<State>, steps: seq<Step>) {
    && |states| == |steps| + 1 && states[0].rows == []
    && forall i :: 0 <= i < |steps| ==> Next(cfg, states, steps, i)
  }

  ghost predicate Next(cfg: Config, states: seq<State>, steps: seq<Step>, i: nat)
    requires |states| == |steps| + 1 && i < |steps|
  {
    Allowed(states[i], steps[i]) && states[i + 1] == Apply(cfg, states[i], steps[i])
  }

  ghost predicate ValidWallet(cfg: Config) {
    && ValidConfig(cfg)
    && (cfg.wallet.Some? ==> 0.0 < cfg.wallet.value.accountTotal && 0.0 < cfg.wallet.value.globalDaily)
  }

  /** At every moment of every run each account is within its total and its attempts, one account a company. */
  lemma {:induction false} AccountsStayWithinCeilings(cfg: Config, states: seq<State>, steps: seq<Step>, n: nat)
    requires ValidWallet(cfg) && Run(cfg, states, steps) && n < |states|
    ensures Sound(cfg, states[n])
  {
    if n == 0 {
      assert Table(states[0]) == [];
    } else {
      AccountsStayWithinCeilings(cfg, states, steps, n - 1);
      assert Next(cfg, states, steps, n - 1);
      StepKeepsAccounts(cfg, states[n - 1], steps[n - 1]);
    }
  }

  /** At every moment of every run, across midnight, what counts today is within the day's ceiling, if every admission was timely. */
  lemma {:induction false} DaysStayWithinCeiling(cfg: Config, states: seq<State>, steps: seq<Step>, n: nat)
    requires ValidWallet(cfg) && Run(cfg, states, steps) && n < |states|
    requires forall i :: 0 <= i < n ==> TimelyStep(states[i], steps[i])
    ensures DayCeiling(cfg, states[n])
  {
    if n == 0 {
      assert Table(states[0]) == [];
    } else {
      DaysStayWithinCeiling(cfg, states, steps, n - 1);
      AccountsStayWithinCeilings(cfg, states, steps, n - 1);
      assert Next(cfg, states, steps, n - 1);
      TimelyAdmissionsHaveRoom(cfg, states[n - 1], steps[n - 1]);
      StepKeepsTheDay(cfg, states[n - 1], steps[n - 1]);
    }
  }
}
