/**
  When a monitor runs (web/lib/monitors.ts:110-134, 142-174): ticks read the due monitors and run each later, in a
  transaction that goes through only while the monitor is still the due one that was read. This is one monitor.
*/
module MonitorSchedule {
  import opened Common

  type TickId = nat

  /** What a tick read of the monitor when it was due: the tick's time and the slot. */
  datatype Claim = Claim(now: int, slot: int)

  /** A run record; `folded` counts how often its results were folded. */
  datatype RunRow = RunRow(ranAt: int, slot: int, processed: bool, folded: nat)

  datatype State = State(enabled: bool, next: int, claims: map<TickId, Claim>, runs: seq<RunRow>)

  datatype Step =
    | Read(tick: TickId, now: int)
    | RunDue(tick: TickId)
    | Pause(tick: TickId)
    | Toggle(enabled: bool)
    | Collect(run: nat)

  predicate Enabled(s: State, step: Step) {
    match step
    case Read(tick, now) => tick !in s.claims && s.enabled && s.next <= now
    case RunDue(tick) => tick in s.claims
    case Pause(tick) => tick in s.claims
    case Toggle(_) => true
    case Collect(run) => run < |s.runs|
  }

  /** The guard of both updates: still enabled, and still the slot that was read. */
  predicate StillDue(s: State, tick: TickId)
    requires tick in s.claims
  {
    s.enabled && s.next == s.claims[tick].slot
  }

  function Apply(s: State, step: Step, interval: nat): State
    requires Enabled(s, step)
  {
    match step
    case Read(tick, now) => s.(claims := s.claims[tick := Claim(now, s.next)])
    case RunDue(tick) =>
      var c := s.claims[tick];
      if StillDue(s, tick) then s.(next := c.now + interval, runs := s.runs + [RunRow(c.now, c.slot, false, 0)], claims := s.claims - {tick})
      else s.(claims := s.claims - {tick})
    case Pause(tick) => s.(enabled := s.enabled && !StillDue(s, tick), claims := s.claims - {tick})
    case Toggle(enabled) => s.(enabled := enabled)
    case Collect(run) =>
      if s.runs[run].processed then s
      else s.(runs := s.runs[run := s.runs[run].(processed := true, folded := s.runs[run].folded + 1)])
  }

  /** Run i starts a slot that is an interval after the run before it, and no earlier than that slot. */
  predicate OnTime(runs: seq<RunRow>, i: nat, interval: nat)
    requires i < |runs|
  {
    && runs[i].slot <= runs[i].ranAt
    && (i > 0 ==> runs[i].slot == runs[i - 1].ranAt + interval)
  }

  predicate FoldedOnce(r: RunRow) {
    r.folded == if r.processed then 1 else 0
  }

  /** Every run is on time in a slot of its own, and is folded once if at all. */
  ghost predicate Spaced(s: State, interval: nat) {
    && (forall i :: 0 <= i < |s.runs| ==> OnTime(s.runs, i, interval))
    && (forall i :: 0 <= i < |s.runs| ==> FoldedOnce(s.runs[i]))
    && (|s.runs| > 0 ==> s.next == s.runs[|s.runs| - 1].ranAt + interval)
    && (forall t :: t in s.claims ==> s.claims[t].slot <= s.claims[t].now)
  }

  lemma StepKeeps(s: State, step: Step, interval: nat)
    requires Spaced(s, interval) && Enabled(s, step)
    ensures Spaced(Apply(s, step, interval), interval)
  {
    var s' := Apply(s, step, interval);
    forall i | 0 <= i < |s'.runs| ensures OnTime(s'.runs, i, interval) {
      if i < |s.runs| { assert OnTime(s.runs, i, interval); }
    }
  }

  ghost predicate History(states: seq<State>, steps: seq<Step>, interval: nat) {
    && |states| == |steps| + 1 && states[0].claims == map[] && states[0].runs == []
    && forall i :: 0 <= i < |steps| ==> Enabled(states[i], steps[i]) && states[i + 1] == Apply(states[i], steps[i], interval)
  }

  /** Under any interleaving of ticks, toggles and collections, whatever times the ticks read. */
  lemma {:induction false} RunsAreSpaced(states: seq<State>, steps: seq<Step>, interval: nat, n: nat)
    requires History(states, steps, interval) && n < |states|
    ensures Spaced(states[n], interval)
  {
    if n > 0 {
      RunsAreSpaced(states, steps, interval, n - 1);
      StepKeeps(states[n - 1], steps[n - 1], interval);
    }
  }

  lemma {:induction false} FarApart(s: State, interval: nat, i: nat, j: nat)
    requires Spaced(s, interval) && i <= j < |s.runs|
    ensures s.runs[i].ranAt + (j - i) * interval <= s.runs[j].ranAt
    decreases j
  {
    if i < j {
      FarApart(s, interval, i, j - 1);
      assert OnTime(s.runs, j, interval);
      assert (j - i) * interval == (j - 1 - i) * interval + interval;
    }
  }

  lemma FitsInSpan(d: nat, interval: nat, span: nat)
    requires 0 < interval && d * interval <= span
    ensures d <= span / interval
  {
    var q := span / interval;
    QuotientBound(span, interval, q);
    if d >= q + 1 { Product(q + 1, d, interval); }
  }

  lemma QuotientBound(span: nat, interval: nat, q: nat)
    requires 0 < interval && q == span / interval
    ensures span < (q + 1) * interval
  {
  }

  lemma {:induction false} Product(a: nat, b: nat, c: nat)
    requires a <= b
    ensures a * c <= b * c
    decreases b
  {
  }

  /** Any span of time holds at most span / interval + 1 of a monitor's runs, however late its ticks are. */
  lemma AtMostOnePerInterval(s: State, interval: nat, i: nat, j: nat, span: nat)
    requires Spaced(s, interval) && 0 < interval && i <= j < |s.runs| && s.runs[j].ranAt - s.runs[i].ranAt <= span
    ensures j - i + 1 <= span / interval + 1
  {
    FarApart(s, interval, i, j);
    FitsInSpan(j - i, interval, span);
  }

  /** No slot has two runs. */
  lemma SlotsDiffer(s: State, interval: nat, i: nat, j: nat)
    requires Spaced(s, interval) && 0 < interval && i < j < |s.runs|
    ensures s.runs[i].slot < s.runs[j].slot
  {
    FarApart(s, interval, i, j - 1);
    assert OnTime(s.runs, i, interval) && OnTime(s.runs, j, interval);
    assert (j - 1 - i) * interval >= 0;
  }

  /**
    A tick's run starts exactly when the monitor is still enabled and still due in the slot the tick read; it is then due
    again an interval after the tick, and a run record waits to be folded. A pause takes effect exactly then, too.
  */
  lemma ADueRunStarts(s: State, tick: TickId, interval: nat)
    requires tick in s.claims
    ensures
      var c := s.claims[tick];
      var due := s.enabled && s.next == c.slot;
      && Apply(s, RunDue(tick), interval) ==
           State(s.enabled, if due then c.now + interval else s.next, s.claims - {tick},
                 if due then s.runs + [RunRow(c.now, c.slot, false, 0)] else s.runs)
      && Apply(s, Pause(tick), interval) == State(s.enabled && !due, s.next, s.claims - {tick}, s.runs)
  {
  }

  /** A run is folded the first time it is collected, and then never again. */
  lemma ARunIsFoldedOnce(s: State, run: nat, interval: nat)
    requires run < |s.runs| && Spaced(s, interval)
    ensures
      var s' := Apply(s, Collect(run), interval);
      && s'.runs[run].processed && s'.runs[run].folded == 1 && Apply(s', Collect(run), interval) == s'
      && |s'.runs| == |s.runs| && forall i :: 0 <= i < |s.runs| && i != run ==> s'.runs[i] == s.runs[i]
  {
    assert FoldedOnce(s.runs[run]);
  }
}
