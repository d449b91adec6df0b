/**
  The ledger of what free trials cost (web/lib/billing/trial-budget.ts:126-168): what a reservation counts for,
  the query that reads the rows under SQL's three-valued logic, and the loop that adds them up. Money is real.
*/
module TrialLedger {
  import opened Common

  type Tenant = nat
  type JobId = nat
  type ReservationId = nat

  datatype Kind = Scan | SiteRead
  datatype Status = Pending | Running | Done | Failed

  /** The columns of scan_jobs the ledger reads; only what was spent is nullable. */
  datatype Job = Job(user: Tenant, status: Status, cancelled: bool, attempts: int, spend: Option<real>)

  datatype Reservation = Reservation(id: ReservationId, tenant: Tenant, job: Option<JobId>, kind: Kind, reserve: real,
                                     spent: Option<real>, day: int, createdAt: int, settledAt: Option<int>,
                                     settledAttempt: Option<int>)

  /** A reservation left-joined with its tenant's scan job. */
  datatype LedgerRow = LedgerRow(r: Reservation, job: Option<Job>)

  const READ_GRACE_S := 3600
  const DAY_S := 86400

  function Day(now: int): int { now / DAY_S }

  function NonNegative(x: real): real { if x < 0.0 then 0.0 else x }

  /** What a job recorded as spent; nothing recorded is zero. */
  function Spend(j: Job): real {
    NonNegative(if j.spend.Some? then j.spend.value else 0.0)
  }

  /** A read has its cost once its call settled. */
  predicate ReadSettled(x: LedgerRow) { x.r.settledAt.Some? && x.r.spent.Some? }

  function ReadEndedAt(x: LedgerRow): int {
    if x.r.settledAt.Some? then x.r.settledAt.value else x.r.createdAt + READ_GRACE_S
  }

  /** The scan is finished and the attempt that finished it has settled. */
  predicate Settled(x: LedgerRow) {
    && x.job.Some? && x.job.value.status in {Done, Failed}
    && x.r.settledAt.Some? && x.r.settledAttempt.Some?
    && x.r.settledAttempt.value == x.job.value.attempts
  }

  function Cost(x: LedgerRow): real {
    if x.r.kind == SiteRead then (if ReadSettled(x) then NonNegative(x.r.spent.value) else x.r.reserve)
    else if Settled(x) then Spend(x.job.value) else x.r.reserve
  }

  predicate CountsToday(x: LedgerRow, day: int) {
    || x.r.day == day
    || (x.r.day < day && (if x.r.kind == SiteRead then ReadEndedAt(x) >= day * DAY_S
                          else !Settled(x) || x.r.settledAt.value >= day * DAY_S))
  }

  /** A scan that failed, was not cancelled and recorded no spend gives its attempt back. */
  predicate ReleasedBeforeCost(x: LedgerRow) {
    && x.r.kind == Scan && Settled(x) && x.job.value.status == Failed && !x.job.value.cancelled
    && (if x.job.value.spend.Some? then x.job.value.spend.value else 0.0) == 0.0
  }

  predicate IsAttempt(x: LedgerRow, t: Tenant) {
    x.r.tenant == t && x.r.kind == Scan && !ReleasedBeforeCost(x)
  }

  // ----- the sums -----

  datatype Tally = Tally(account: real, today: real, attempts: nat)

  function Plus(y: Tally, x: LedgerRow, t: Tenant, day: int): Tally {
    Tally(y.account + (if x.r.tenant == t then Cost(x) else 0.0),
          y.today + (if CountsToday(x, day) then Cost(x) else 0.0),
          y.attempts + (if IsAttempt(x, t) then 1 else 0))
  }

  function TallyOf(rows: seq<LedgerRow>, t: Tenant, day: int): Tally {
    if rows == [] then Tally(0.0, 0.0, 0)
    else Plus(TallyOf(rows[..|rows| - 1], t, day), rows[|rows| - 1], t, day)
  }

  /** The ledger as the code adds it up, row by row. */
  method Ledger(rows: seq<LedgerRow>, t: Tenant, day: int) returns (account: real, today: real, attempts: nat)
    ensures Tally(account, today, attempts) == TallyOf(rows, t, day)
  {
    account, today, attempts := 0.0, 0.0, 0;
    for i := 0 to |rows|
      invariant Tally(account, today, attempts) == TallyOf(rows[..i], t, day)
    {
      var x := rows[i];
      if x.r.tenant == t && x.r.kind != SiteRead && !ReleasedBeforeCost(x) { attempts := attempts + 1; }
      if x.r.tenant == t { account := account + Cost(x); }
      if CountsToday(x, day) { today := today + Cost(x); }
      assert rows[..i + 1][..i] == rows[..i];
    }
    assert rows[..|rows|] == rows;
  }

  predicate AtMost(a: Tally, b: Tally) {
    a.account <= b.account && a.today <= b.today && a.attempts <= b.attempts
  }

  /** `b` counts for no more on `day'` than `a` did on `day`. */
  predicate Recedes(a: LedgerRow, b: LedgerRow, day: int, day': int) {
    && b.r.tenant == a.r.tenant && Cost(b) <= Cost(a) && 0.0 <= Cost(a)
    && (CountsToday(b, day') ==> CountsToday(a, day))
    && (b.r.kind == Scan && !ReleasedBeforeCost(b) ==> a.r.kind == Scan && !ReleasedBeforeCost(a))
  }

  lemma {:induction false} TallyRecedes(xs: seq<LedgerRow>, ys: seq<LedgerRow>, t: Tenant, day: int, day': int)
    requires |xs| == |ys| && forall i :: 0 <= i < |xs| ==> Recedes(xs[i], ys[i], day, day')
    ensures AtMost(TallyOf(ys, t, day'), TallyOf(xs, t, day))
  {
    if xs != [] {
      var n := |xs| - 1;
      TallyRecedes(xs[..n], ys[..n], t, day, day');
      assert Recedes(xs[n], ys[n], day, day');
    }
  }

  function Where(rows: seq<LedgerRow>, p: LedgerRow -> bool): seq<LedgerRow> {
    if rows == [] then []
    else var n := |rows| - 1; Where(rows[..n], p) + (if p(rows[n]) then [rows[n]] else [])
  }

  lemma TallyAppend(rows: seq<LedgerRow>, x: LedgerRow, t: Tenant, day: int)
    ensures TallyOf(rows + [x], t, day) == Plus(TallyOf(rows, t, day), x, t, day)
  {
  }

  // ----- the query -----

  /** A truth value of SQL: unknown is null. */
  datatype Truth = Yes | No | Null

  function Bool(b: bool): Truth { if b then Yes else No }
  function And(a: Truth, b: Truth): Truth { if a == No || b == No then No else if a == Null || b == Null then Null else Yes }
  function Or(a: Truth, b: Truth): Truth { if a == Yes || b == Yes then Yes else if a == Null || b == Null then Null else No }
  function Not(a: Truth): Truth { match a case Yes => No case No => Yes case Null => Null }
  function OrElse(a: Truth, b: Truth): Truth { if a == Null then b else a }
  function Equal(a: Option<int>, b: Option<int>): Truth { if a.None? || b.None? then Null else Bool(a.value == b.value) }
  function AtLeast(a: Option<int>, n: int): Truth { if a.None? then Null else Bool(a.value >= n) }

  /** Columns of the joined job: null when the join found none. */
  function JobStatus(x: LedgerRow): Option<Status> { if x.job.Some? then Some(x.job.value.status) else None }
  function JobAttempts(x: LedgerRow): Option<int> { if x.job.Some? then Some(x.job.value.attempts) else None }

  function StatusFinished(s: Option<Status>): Truth {
    if s.None? then Null else Bool(s.value == Done || s.value == Failed)
  }

  function SettledSql(x: LedgerRow): Truth {
    And(And(StatusFinished(JobStatus(x)), Bool(x.r.settledAt.Some?)), Equal(x.r.settledAttempt, JobAttempts(x)))
  }

  /** The query's condition on a row. */
  function WhereSql(x: LedgerRow, t: Tenant, day: int): Truth {
    var midnight := day * DAY_S;
    var readEnded := if x.r.settledAt.Some? then x.r.settledAt else Some(x.r.createdAt + READ_GRACE_S);
    Or(Or(Bool(x.r.tenant == t), Bool(x.r.day == day)),
       And(Bool(x.r.day < day),
           Or(And(Bool(x.r.kind == SiteRead), AtLeast(readEnded, midnight)),
              And(Bool(x.r.kind != SiteRead), Or(Not(OrElse(SettledSql(x), No)), AtLeast(x.r.settledAt, midnight))))))
  }

  /** The query returns the rows whose condition is true, not those where it is null. */
  function Selected(rows: seq<LedgerRow>, t: Tenant, day: int): seq<LedgerRow> {
    Where(rows, x => WhereSql(x, t, day) == Yes)
  }

  /** The query selects a row exactly when it is the account's or counts today, whatever in it is null. */
  lemma QueryMatchesRule(x: LedgerRow, t: Tenant, day: int)
    ensures WhereSql(x, t, day) == Yes <==> x.r.tenant == t || CountsToday(x, day)
  {
  }

  /** So the ledger of the query's rows is the whole table's. */
  lemma {:induction false} QueryLosesNothing(rows: seq<LedgerRow>, t: Tenant, day: int)
    ensures TallyOf(Selected(rows, t, day), t, day) == TallyOf(rows, t, day)
  {
    if rows != [] {
      var n := |rows| - 1;
      QueryLosesNothing(rows[..n], t, day);
      if WhereSql(rows[n], t, day) == Yes {
        TallyAppend(Selected(rows[..n], t, day), rows[n], t, day);
      } else {
        QueryMatchesRule(rows[n], t, day);
        assert Selected(rows, t, day) == Selected(rows[..n], t, day);
      }
    }
  }
}
