/** The budget's transactions (web/lib/billing/trial-budget.ts:174-276), proved to be the machine's steps. */
module TrialStore {
  import opened Common
  import opened TrialLedger
  import opened TrialBudget

  class Budget {
    const cfg: Config
    var rows: seq<Reservation>
    var jobs: map<JobId, Job>

    constructor (cfg: Config)
      ensures this.cfg == cfg && rows == [] && jobs == map[]
    {
      this.cfg := cfg;
      rows, jobs := [], map[];
    }

    function At(now: int): State
      reads this
    {
      State(rows, jobs, now)
    }

    /** The checks of one admission, under the lock. */
    method Refusal(w: Wallet, t: Tenant, google: bool, day: int, reserve: real, ghost now: int)
      returns (why: Option<TrialBudget.Refusal>)
      ensures why == Refused(cfg, w, At(now), t, google, day, reserve)
    {
      if !google { return Some(GoogleRequired); }
      if SomeoneElseUsed(cfg, rows, t) { return Some(DomainUsed); }
      var table := Table(At(0));
      assert Table(At(now)) == table;
      var account, today, attempts := Ledger(Selected(table, t, day), t, day);
      assert Tally(account, today, attempts) == TallyOf(Selected(table, t, day), t, day);
      if attempts >= TRIAL_SCANS_PER_ACCOUNT { return Some(AttemptsCap); }
      if account + reserve > w.accountTotal + TOLERANCE { return Some(AccountTotalCap); }
      if today + reserve > w.globalDaily + TOLERANCE { return Some(GlobalDailyCap); }
      return None;
    }

    /** Admits a scan or a website read; `readAt` is the clock as it was read, `now` the time of the transaction. */
    method AdmitTrial(kind: Kind, id: ReservationId, t: Tenant, google: bool, readAt: int, ghost now: int)
      returns (why: Option<TrialBudget.Refusal>)
      modifies `rows
      ensures why == Admission(cfg, old(At(now)), kind, t, google, readAt)
      ensures At(now) == Apply(cfg, old(At(now)), Admit(kind, id, t, google, readAt))
    {
      var reserve := ReserveFor(cfg, kind);
      if reserve.None? { return Some(NotConfigured); }
      why := Refusal(cfg.wallet.value, t, google, Day(readAt), reserve.value, now);
      if why.None? { rows := rows + [NewReservation(kind, id, t, reserve.value, readAt)]; }
    }

    method SettleTrialSiteRead(t: Tenant, id: ReservationId, spent: Option<real>, at: int, ghost now: int)
      modifies `rows
      ensures At(now) == Apply(cfg, old(At(now)), SettleRead(id, t, spent, at))
    {
      var usd := if spent.Some? && spent.value >= 0.0 then spent.value else SITE_READ_RESERVE;
      rows := seq(|rows|, i requires 0 <= i < |rows| reads this =>
        var r := rows[i];
        if r.id == id && r.tenant == t && r.kind == SiteRead && r.settledAt.None?
        then r.(settledAt := Some(at), spent := Some(usd)) else r);
    }

    method SettleTrialReservation(job: JobId, attempt: int, at: int, ghost now: int)
      modifies `rows
      ensures At(now) == Apply(cfg, old(At(now)), SettleScan(job, attempt, at))
    {
      rows := seq(|rows|, i requires 0 <= i < |rows| reads this =>
        if rows[i].job == Some(job) then rows[i].(settledAt := Some(at), settledAttempt := Some(attempt)) else rows[i]);
    }

    method LinkTrialReservation(t: Tenant, id: ReservationId, job: JobId, ghost now: int)
      modifies `rows
      ensures At(now) == Apply(cfg, old(At(now)), Link(id, t, job))
    {
      rows := seq(|rows|, i requires 0 <= i < |rows| reads this =>
        if rows[i].id == id && rows[i].tenant == t && rows[i].job.None? then rows[i].(job := Some(job)) else rows[i]);
    }

    /** Deletes the reservation, unless it was for a job that exists after all; says whether a row went. */
    method ReleaseTrialReservation(t: Tenant, id: ReservationId, neverCreated: Option<JobId>, ghost now: int)
      returns (went: bool)
      modifies `rows
      ensures At(now) == Apply(cfg, old(At(now)), Release(id, t, neverCreated))
      ensures went <==> |rows| < old(|rows|)
    {
      if neverCreated.Some? && neverCreated.value in jobs { return false; }
      var kept := [];
      for i := 0 to |rows|
        invariant kept == Keep(rows[..i], id, t, neverCreated) && |kept| <= i
      {
        assert rows[..i + 1][..i] == rows[..i];
        if !Releases(rows[i], id, t, neverCreated) { kept := kept + [rows[i]]; }
      }
      assert rows[..|rows|] == rows;
      went := |kept| < |rows|;
      rows := kept;
    }
  }
}
