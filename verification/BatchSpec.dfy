/**
  A benchmark batch under a total budget (web/lib/benchmark/runner.ts:162-217). Each task's records are a slice
  of the store; a batch that finds a slice partly filled goes on from there. Adapters are deterministic.
*/
module BatchSpec {
  import opened Common
  import opened Canonical

  type System = nat

  datatype Stop = BudgetStop | TimeoutStop | RateLimited | LoginRequired | Paywall | FeatureUnavailable

  datatype Outcome =
    | TimedOut
    | Threw
    | Ran(items: seq<RawItem>, cost: Option<real>, seconds: Option<real>, stopped: Option<Stop>)

  datatype Status = Complete | Incomplete | Failed | Unsupported | NotRun

  datatype Record = Record(status: Status, cost: Option<real>, seconds: Option<real>, items: seq<CanonicalItem>)

  type Slice = map<System, Record>

  /**
    What a batch id fixes: the systems in name order, which are available, how many tasks, the limits and the
    seed; and what each adapter does with each task.
  */
  datatype Batch = Batch(systems: seq<System>, available: System -> bool, tasks: nat, perTask: real, secondsPerTask: real,
                         total: real, seed: nat, supports: (System, nat) -> bool, adapter: (System, nat) -> Outcome)

  predicate ValidBatch(b: Batch) {
    && 0.0 < b.perTask && 0.0 < b.secondsPerTask && 0.0 <= b.total
    && forall i, j :: 0 <= i < j < |b.systems| ==> b.systems[i] != b.systems[j]
  }

  /** An adapter call, and what had been spent when it started. */
  datatype AdapterCall = AdapterCall(system: System, task: nat, spent: real)

  datatype State = State(slice: Slice, spent: real, calls: seq<AdapterCall>)

  function StopStatus(s: Stop): Status {
    match s
    case BudgetStop => Incomplete
    case TimeoutStop => Incomplete
    case RateLimited => Incomplete
    case LoginRequired => Unsupported
    case Paywall => Unsupported
    case FeatureUnavailable => Unsupported
  }

  function RecordOf(b: Batch, o: Outcome): Record {
    match o
    case Threw => Record(Failed, None, None, [])
    case TimedOut => Record(Incomplete, None, Some(b.secondsPerTask), [])
    case Ran(items, cost, seconds, stopped) =>
      var status :=
        if stopped.Some? then StopStatus(stopped.value)
        else if seconds.Some? && seconds.value > b.secondsPerTask then Incomplete
        else if cost.Some? && cost.value > b.perTask then Incomplete
        else Complete;
      Record(status, cost, seconds, Canonicalize(items))
  }

  /** What a call adds to the spend: an unknown cost is the whole task limit. */
  function Charge(b: Batch, o: Outcome): real {
    if o.Ran? && o.cost.Some? then o.cost.value else b.perTask
  }

  /** What a record found in the store adds to the spend of a resumed batch. */
  function ChargeAgain(b: Batch, r: Record): real {
    if r.cost.Some? then r.cost.value
    else if r.status in {Complete, Incomplete, Failed} then b.perTask
    else 0.0
  }

  const UNAVAILABLE := Record(Unsupported, None, None, [])
  const CANNOT_EXPRESS := Record(Unsupported, None, None, [])
  const REFUSED := Record(NotRun, None, None, [])

  /** The first loop over one task: recorded systems are charged again, unavailable ones recorded. */
  function Collect(b: Batch, systems: seq<System>, st: State): State
    decreases |systems|
  {
    if systems == [] then st
    else
      var rest, a := systems[..|systems| - 1], systems[|systems| - 1];
      var before := Collect(b, rest, st);
      if a in before.slice then before.(spent := before.spent + ChargeAgain(b, before.slice[a]))
      else if !b.available(a) then before.(slice := before.slice[a := UNAVAILABLE])
      else before
  }

  /** One adapter's turn at a task. */
  function Turn(b: Batch, t: nat, a: System, st: State): State {
    if a in st.slice then st
    else if !b.supports(a, t) then st.(slice := st.slice[a := CANNOT_EXPRESS])
    else if st.spent + b.perTask > b.total then st.(slice := st.slice[a := REFUSED])
    else
      var o := b.adapter(a, t);
      State(st.slice[a := RecordOf(b, o)], st.spent + Charge(b, o), st.calls + [AdapterCall(a, t, st.spent)])
  }

  /** The second loop: the turns in order. */
  function Turns(b: Batch, t: nat, order: seq<System>, st: State): State {
    if order == [] then st
    else Turn(b, t, order[|order| - 1], Turns(b, t, order[..|order| - 1], st))
  }

  function Runnable(b: Batch, systems: seq<System>): seq<System> {
    if systems == [] then []
    else
      var n := |systems| - 1;
      Runnable(b, systems[..n]) + (if b.available(systems[n]) then [systems[n]] else [])
  }

  /** The runnable systems, rotated so that another goes first at each task. */
  function Order(b: Batch, t: nat): seq<System> {
    var r := Runnable(b, b.systems);
    var shift := if |r| == 0 then 0 else (t + b.seed) % |r|;
    r[shift..] + r[..shift]
  }

  function Task(b: Batch, t: nat, st: State): State {
    Turns(b, t, Order(b, t), Collect(b, b.systems, st))
  }

  /** A whole batch: its store, one slice a task, what it spent, and its calls in order. */
  datatype Result = Result(store: seq<Slice>, spent: real, calls: seq<AdapterCall>)

  /** The first n tasks, from what the store holds; `log` is the calls of earlier runs of the batch. */
  function Run(b: Batch, store: seq<Slice>, log: seq<AdapterCall>, n: nat): (r: Result)
    requires n <= |store|
    ensures |r.store| == n
  {
    if n == 0 then Result([], 0.0, log) else Extend(b, Run(b, store, log, n - 1), store[n - 1], n - 1)
  }

  /** One more task. */
  function Extend(b: Batch, r: Result, slice: Slice, t: nat): (r': Result)
    ensures |r'.store| == |r.store| + 1
  {
    var st := Task(b, t, State(slice, r.spent, r.calls));
    Result(r.store + [st.slice], st.spent, st.calls)
  }

  // ----- the order -----

  ghost predicate DistinctSystems(s: seq<System>) {
    forall i, j :: 0 <= i < j < |s| ==> s[i] != s[j]
  }

  lemma {:induction false} RunnableIsPart(b: Batch, systems: seq<System>)
    requires DistinctSystems(systems)
    ensures DistinctSystems(Runnable(b, systems))
    ensures forall a :: a in Runnable(b, systems) <==> a in systems && b.available(a)
  {
    if systems != [] {
      var n := |systems| - 1;
      RunnableIsPart(b, systems[..n]);
      assert systems[..n] + [systems[n]] == systems;
      assert forall a :: a in systems[..n] ==> exists i :: 0 <= i < n && systems[i] == a;
    }
  }

  /** Every task gives each runnable system exactly one turn. */
  lemma OrderIsFair(b: Batch, t: nat)
    requires ValidBatch(b)
    ensures DistinctSystems(Order(b, t))
    ensures forall a :: a in Order(b, t) <==> a in b.systems && b.available(a)
  {
    RunnableIsPart(b, b.systems);
    var r := Runnable(b, b.systems);
    var shift := if |r| == 0 then 0 else (t + b.seed) % |r|;
    assert r == r[..shift] + r[shift..];
    assert forall a :: a in r <==> a in r[..shift] || a in r[shift..];
  }

  // ----- what is charged -----

  /** What the records of a slice are charged when a batch resumes. */
  function Recorded(b: Batch, systems: seq<System>, slice: Slice): real {
    if systems == [] then 0.0
    else
      var n := |systems| - 1;
      Recorded(b, systems[..n], slice) + (if systems[n] in slice then ChargeAgain(b, slice[systems[n]]) else 0.0)
  }

  lemma {:induction false} RecordedWith(b: Batch, systems: seq<System>, slice: Slice, a: System, r: Record)
    requires DistinctSystems(systems) && a !in slice
    ensures Recorded(b, systems, slice[a := r]) == Recorded(b, systems, slice) + (if a in systems then ChargeAgain(b, r) else 0.0)
  {
    if systems != [] {
      var n := |systems| - 1;
      RecordedWith(b, systems[..n], slice, a, r);
      assert systems[..n] + [systems[n]] == systems;
      assert a in systems[..n] ==> a != systems[n];
    }
  }

  /** The records of the unavailable systems among `systems`, added where a slice has none. */
  function WithUnavailable(b: Batch, systems: seq<System>, slice: Slice): Slice {
    map a | a in slice.Keys + (set x | x in systems && !b.available(x)) :: if a in slice then slice[a] else UNAVAILABLE
  }

  lemma UnavailableNext(b: Batch, rest: seq<System>, a: System, slice: Slice)
    requires DistinctSystems(rest + [a])
    ensures a in WithUnavailable(b, rest, slice) <==> a in slice
    ensures WithUnavailable(b, rest + [a], slice) ==
      if a in slice || b.available(a) then WithUnavailable(b, rest, slice) else WithUnavailable(b, rest, slice)[a := UNAVAILABLE]
  {
    forall i | 0 <= i < |rest| ensures rest[i] != a {
      assert (rest + [a])[i] != (rest + [a])[|rest|];
    }
  }

  lemma {:induction false} Collected(b: Batch, systems: seq<System>, st: State)
    requires DistinctSystems(systems)
    ensures Collect(b, systems, st) ==
      State(WithUnavailable(b, systems, st.slice), st.spent + Recorded(b, systems, st.slice), st.calls)
  {
    if systems == [] {
      assert WithUnavailable(b, systems, st.slice) == st.slice;
    } else {
      var rest, a := systems[..|systems| - 1], systems[|systems| - 1];
      Collected(b, rest, st);
      UnavailableNext(b, rest, a, st.slice);
      assert systems == rest + [a];
    }
  }

  /** Unavailable systems cost nothing. */
  lemma {:induction false} UnavailableIsFree(b: Batch, systems: seq<System>, more: seq<System>, slice: Slice)
    ensures Recorded(b, systems, WithUnavailable(b, more, slice)) == Recorded(b, systems, slice)
  {
    if systems != [] { UnavailableIsFree(b, systems[..|systems| - 1], more, slice); }
  }

  /** A stop that is never bypassed, with no cost reported: charged the whole limit at first and nothing on resuming. */
  predicate Forgotten(o: Outcome) {
    o.Ran? && o.cost.None? && o.stopped in {Some(LoginRequired), Some(Paywall), Some(FeatureUnavailable)}
  }

  /** A resumed batch charges a record what its call was charged, exactly when it is not one of those; then it charges nothing. */
  lemma ChargedTheSame(b: Batch, o: Outcome)
    requires ValidBatch(b)
    ensures ChargeAgain(b, RecordOf(b, o)) == Charge(b, o) <==> !Forgotten(o)
    ensures Charge(b, o) == ChargeAgain(b, RecordOf(b, o)) + (if Forgotten(o) then b.perTask else 0.0)
  {
  }
}
