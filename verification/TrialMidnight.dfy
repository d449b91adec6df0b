/**
  Admissions that wait for the lock past midnight (web/lib/billing/trial-budget.ts:196-227): which of them keep the
  day's ceiling in every run of a deployment, and for the others a run that breaks it.
*/
module TrialMidnight {
  import opened Common
  import opened TrialLedger
  import opened TrialBudget

  /** No other account is of its company, so it is not refused for another's trial. */
  ghost predicate OwnCompany(cfg: Config, t: Tenant) {
    cfg.company(t).Some? ==> forall u :: u != t ==> cfg.company(u) != cfg.company(t)
  }

  /** An admission of this kind is possible at all, for any account. */
  ghost predicate Fits(cfg: Config, kind: Kind) {
    && ValidWallet(cfg) && (forall t :: OwnCompany(cfg, t))
    && var reserve := ReserveFor(cfg, kind);
    && reserve.Some? && reserve.value <= cfg.wallet.value.accountTotal + TOLERANCE
    && reserve.value <= cfg.wallet.value.globalDaily + TOLERANCE
  }

  /** The n-th step is an admission that read `readAt` and commits at `now`; every admission before it was timely. */
  ghost predicate TimelyUpTo(cfg: Config, states: seq<State>, steps: seq<Step>, n: nat, kind: Kind, readAt: int, now: int) {
    && Run(cfg, states, steps) && n < |steps| && (forall i :: 0 <= i < n ==> TimelyStep(states[i], steps[i]))
    && states[n].now == now && steps[n].Admit? && steps[n].kind == kind && steps[n].readAt == readAt
  }

  /** However the run before it went, as long as it was timely, such an admission keeps the day. */
  ghost predicate KeepsTheDay(cfg: Config, kind: Kind, readAt: int, now: int) {
    forall states: seq<State>, steps: seq<Step>, n: nat ::
      TimelyUpTo(cfg, states, steps, n, kind, readAt, now) ==> DayCeiling(cfg, states[n + 1])
  }

  // ----- a day that is full -----

  /** n reserves. */
  function Times(reserve: real, n: nat): real { if n == 0 then 0.0 else Times(reserve, n - 1) + reserve }

  lemma {:induction false} TimesIsProduct(reserve: real, n: nat)
    ensures Times(reserve, n) == n as real * reserve
  {
    if n > 0 { TimesIsProduct(reserve, n - 1); }
  }

  lemma PastTheCap(reserve: real, cap: real) returns (n: nat)
    requires 0.0 < reserve && 0.0 <= cap
    ensures Times(reserve, n) > cap
  {
    var q := cap / reserve;
    assert q * reserve == cap;
    n := q.Floor + 1;
    TimesIsProduct(reserve, n);
    assert n as real > q;
  }

  /** As many as the cap has room for. */
  lemma {:induction false} UpToTheCap(reserve: real, cap: real, past: nat) returns (n: nat)
    requires 0.0 < reserve && 0.0 <= cap && Times(reserve, past) > cap
    ensures Times(reserve, n) <= cap < Times(reserve, n + 1)
  {
    if Times(reserve, past - 1) <= cap {
      n := past - 1;
    } else {
      n := UpToTheCap(reserve, cap, past - 1);
    }
  }

  lemma {:induction false} TimesGrows(reserve: real, i: nat, n: nat)
    requires 0.0 < reserve && i <= n
    ensures Times(reserve, i) <= Times(reserve, n)
    decreases n
  {
    if i < n { TimesGrows(reserve, i, n - 1); }
  }

  /** The i-th of the admissions that fill a day: each is of another account, and prompt. */
  function Filling(kind: Kind, i: nat, now: int): Step { Admit(kind, i, i + 1, true, now) }

  function FilledRow(kind: Kind, i: nat, reserve: real, now: int): Reservation {
    NewReservation(kind, i, i + 1, reserve, now)
  }

  function Filled(kind: Kind, n: nat, reserve: real, now: int): State {
    State(seq(n, i requires 0 <= i => FilledRow(kind, i, reserve, now)), map[], now)
  }

  /** They count for their own day and their own accounts. */
  lemma {:induction false} FilledSums(kind: Kind, n: nat, reserve: real, now: int, t: Tenant, day: int)
    requires day <= Day(now) && (t == 0 || n < t)
    ensures TallyOf(Table(Filled(kind, n, reserve, now)), t, day) == Tally(0.0, if day == Day(now) then Times(reserve, n) else 0.0, 0)
  {
    var rows := Table(Filled(kind, n, reserve, now));
    if n > 0 {
      FilledSums(kind, n - 1, reserve, now, t, day);
      assert rows[..n - 1] == Table(Filled(kind, n - 1, reserve, now));
      assert rows[n - 1] == LedgerRow(FilledRow(kind, n - 1, reserve, now), None);
    }
  }

  /** A new account is admitted while the day it read has room. */
  lemma NewAccountAdmitted(cfg: Config, kind: Kind, n: nat, now: int, step: Step)
    requires Fits(cfg, kind) && step.Admit? && step.kind == kind && step.google && (step.t == 0 || n < step.t)
    requires Day(step.readAt) <= Day(now)
    requires Day(step.readAt) == Day(now) ==>
      Times(ReserveFor(cfg, kind).value, n) + ReserveFor(cfg, kind).value <= cfg.wallet.value.globalDaily + TOLERANCE
    ensures Admits(cfg, Filled(kind, n, ReserveFor(cfg, kind).value, now), step)
  {
    var reserve := ReserveFor(cfg, kind).value;
    var s := Filled(kind, n, reserve, now);
    FilledSums(kind, n, reserve, now, step.t, Day(step.readAt));
    QueryLosesNothing(Table(s), step.t, Day(step.readAt));
    assert OwnCompany(cfg, step.t);
  }

  lemma AdmittedFills(cfg: Config, kind: Kind, n: nat, now: int)
    requires ReserveFor(cfg, kind).Some? && Admits(cfg, Filled(kind, n, ReserveFor(cfg, kind).value, now), Filling(kind, n, now))
    ensures
      var reserve := ReserveFor(cfg, kind).value;
      Apply(cfg, Filled(kind, n, reserve, now), Filling(kind, n, now)) == Filled(kind, n + 1, reserve, now)
  {
  }

  lemma FillsOneMore(cfg: Config, kind: Kind, n: nat, now: int)
    requires Fits(cfg, kind)
    requires Times(ReserveFor(cfg, kind).value, n + 1) <= cfg.wallet.value.globalDaily + TOLERANCE
    ensures
      var reserve := ReserveFor(cfg, kind).value;
      Apply(cfg, Filled(kind, n, reserve, now), Filling(kind, n, now)) == Filled(kind, n + 1, reserve, now)
  {
    NewAccountAdmitted(cfg, kind, n, now, Filling(kind, n, now));
    AdmittedFills(cfg, kind, n, now);
  }

  // ----- a late admission -----

  /** The run: the day is filled up, and then an admission commits that read the clock before midnight. */
  function FillingRun(kind: Kind, n: nat, readAt: int, now: int): (steps: seq<Step>)
    ensures |steps| == n + 1 && steps[n] == Admit(kind, n, 0, true, readAt)
    ensures forall i :: 0 <= i < n ==> steps[i] == Filling(kind, i, now)
  {
    seq(n, i requires 0 <= i => Filling(kind, i, now)) + [Admit(kind, n, 0, true, readAt)]
  }

  function FillingStates(cfg: Config, kind: Kind, n: nat, readAt: int, now: int): (states: seq<State>)
    requires ReserveFor(cfg, kind).Some?
    ensures |states| == n + 2
    ensures forall i :: 0 <= i <= n ==> states[i] == Filled(kind, i, ReserveFor(cfg, kind).value, now)
    ensures states[n + 1] == Apply(cfg, Filled(kind, n, ReserveFor(cfg, kind).value, now), Admit(kind, n, 0, true, readAt))
  {
    var reserve := ReserveFor(cfg, kind).value;
    seq(n + 1, i requires 0 <= i => Filled(kind, i, reserve, now))
    + [Apply(cfg, Filled(kind, n, reserve, now), Admit(kind, n, 0, true, readAt))]
  }

  lemma FillingAllowed(cfg: Config, kind: Kind, i: nat, now: int)
    requires Fits(cfg, kind) && Times(ReserveFor(cfg, kind).value, i + 1) <= cfg.wallet.value.globalDaily + TOLERANCE
    ensures
      var s, step := Filled(kind, i, ReserveFor(cfg, kind).value, now), Filling(kind, i, now);
      && Allowed(s, step) && TimelyStep(s, step)
      && Apply(cfg, s, step) == Filled(kind, i + 1, ReserveFor(cfg, kind).value, now)
  {
    FillsOneMore(cfg, kind, i, now);
  }

  lemma FillingGoesOn(cfg: Config, kind: Kind, n: nat, readAt: int, now: int, i: nat)
    requires Fits(cfg, kind) && i < n && Times(ReserveFor(cfg, kind).value, n) <= cfg.wallet.value.globalDaily + TOLERANCE
    ensures
      var states, steps := FillingStates(cfg, kind, n, readAt, now), FillingRun(kind, n, readAt, now);
      Next(cfg, states, steps, i) && TimelyStep(states[i], steps[i])
  {
    TimesGrows(ReserveFor(cfg, kind).value, i + 1, n);
    FillingAllowed(cfg, kind, i, now);
  }

  lemma FillingIsARun(cfg: Config, kind: Kind, n: nat, readAt: int, now: int)
    requires Fits(cfg, kind) && readAt <= now && Times(ReserveFor(cfg, kind).value, n) <= cfg.wallet.value.globalDaily + TOLERANCE
    ensures
      var states, steps := FillingStates(cfg, kind, n, readAt, now), FillingRun(kind, n, readAt, now);
      Run(cfg, states, steps) && forall i :: 0 <= i < n ==> TimelyStep(states[i], steps[i])
  {
    var states, steps := FillingStates(cfg, kind, n, readAt, now), FillingRun(kind, n, readAt, now);
    forall i: nat | i < n ensures Next(cfg, states, steps, i) && TimelyStep(states[i], steps[i]) {
      FillingGoesOn(cfg, kind, n, readAt, now, i);
    }
    assert Next(cfg, states, steps, n);
  }

  /** It is admitted, for it finds room on the day it read; and it counts today, which is full. */
  lemma TheLateOneOverruns(cfg: Config, kind: Kind, n: nat, readAt: int, now: int)
    requires Fits(cfg, kind) && readAt <= now && !Timely(kind, readAt, now)
    requires Times(ReserveFor(cfg, kind).value, n + 1) > cfg.wallet.value.globalDaily + TOLERANCE
    ensures !DayCeiling(cfg, Apply(cfg, Filled(kind, n, ReserveFor(cfg, kind).value, now), Admit(kind, n, 0, true, readAt)))
  {
    var reserve := ReserveFor(cfg, kind).value;
    var s, late := Filled(kind, n, reserve, now), Admit(kind, n, 0, true, readAt);
    NewAccountAdmitted(cfg, kind, n, now, late);
    FilledSums(kind, n, reserve, now, 0, Day(now));
    AdmissionAdds(cfg, s, late, 0, Day(now));
  }

  /** For every admission that is not timely, a run that is timely up to it and overruns the day with it. */
  lemma ALateAdmissionOverruns(cfg: Config, kind: Kind, readAt: int, now: int) returns (states: seq<State>,
                               steps: seq<Step>, n: nat)
    requires Fits(cfg, kind) && readAt <= now && !Timely(kind, readAt, now)
    ensures TimelyUpTo(cfg, states, steps, n, kind, readAt, now) && !DayCeiling(cfg, states[n + 1])
  {
    var reserve, cap := ReserveFor(cfg, kind).value, cfg.wallet.value.globalDaily + TOLERANCE;
    var past := PastTheCap(reserve, cap);
    n := UpToTheCap(reserve, cap, past);
    states, steps := FillingStates(cfg, kind, n, readAt, now), FillingRun(kind, n, readAt, now);
    FillingIsARun(cfg, kind, n, readAt, now);
    TheLateOneOverruns(cfg, kind, n, readAt, now);
  }

  /** An admission keeps the day's ceiling in every run of any deployment that can admit it if and only if it is timely. */
  lemma LateAdmissionsExactly(cfg: Config, kind: Kind, readAt: int, now: int)
    requires Fits(cfg, kind) && readAt <= now
    ensures KeepsTheDay(cfg, kind, readAt, now) <==> Timely(kind, readAt, now)
  {
    if Timely(kind, readAt, now) {
      forall states: seq<State>, steps: seq<Step>, n: nat
        | TimelyUpTo(cfg, states, steps, n, kind, readAt, now)
        ensures DayCeiling(cfg, states[n + 1])
      {
        DaysStayWithinCeiling(cfg, states, steps, n + 1);
      }
    } else {
      var states, steps, n := ALateAdmissionOverruns(cfg, kind, readAt, now);
    }
  }

  // ----- the smallest such run -----

  const TIGHT := Config(Some(Wallet(10.0, 1.0)), Some(1.0), (t: Tenant) => None)

  /**
    An admission reads the clock just before midnight and waits for the lock while another is admitted just after; it
    then checks yesterday's room and its scan counts today as well.
  */
  lemma ALateAdmissionOverrunsTheDay() returns (states: seq<State>, steps: seq<Step>)
    ensures ValidWallet(TIGHT) && Run(TIGHT, states, steps)
    ensures !DayCeiling(TIGHT, states[|states| - 1])
  {
    steps := [Admit(Scan, 2, 2, true, 86400), Admit(Scan, 1, 1, true, 86399)];
    var s0 := State([], map[], 86400);
    var r2 := NewReservation(Scan, 2, 2, 1.0, 86400);
    var r1 := NewReservation(Scan, 1, 1, 1.0, 86399);
    assert Table(s0) == [];
    var s1 := Apply(TIGHT, s0, steps[0]);
    assert s1 == State([r2], map[], 86400);
    AdmissionAdds(TIGHT, s0, steps[0], 1, 0);
    QueryLosesNothing(Table(s1), 1, 0);
    assert Admits(TIGHT, s1, steps[1]);
    var s2 := Apply(TIGHT, s1, steps[1]);
    AdmissionAdds(TIGHT, s0, steps[0], 0, 1);
    AdmissionAdds(TIGHT, s1, steps[1], 0, 1);
    states := [s0, s1, s2];
  }
}
