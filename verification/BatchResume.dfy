/**
  What a stopped batch comes to when it is run again on the same store (web/lib/benchmark/runner.ts:180-217). A run
  can stop between two records, or inside an adapter call: the call has been made, and nothing is recorded of it.
*/
module BatchResume {
  import opened Common
  import opened BatchSpec
  import opened BatchBudget

  // ----- what records forget -----

  /** What calls were charged and their records are not charged again. */
  function Lost(b: Batch, calls: seq<AdapterCall>): real {
    if calls == [] then 0.0
    else
      var n := |calls| - 1;
      Lost(b, calls[..n]) + (if Forgotten(b.adapter(calls[n].system, calls[n].task)) then b.perTask else 0.0)
  }

  ghost predicate NoneForgotten(b: Batch, calls: seq<AdapterCall>) {
    forall c :: c in calls ==> !Forgotten(b.adapter(c.system, c.task))
  }

  lemma {:induction false} LostTogether(b: Batch, x: seq<AdapterCall>, y: seq<AdapterCall>)
    ensures Lost(b, x + y) == Lost(b, x) + Lost(b, y)
  {
    if y == [] {
      assert x + y == x;
    } else {
      var n := |y| - 1;
      LostTogether(b, x, y[..n]);
      assert (x + y)[..|x + y| - 1] == x + y[..n];
    }
  }

  lemma {:induction false} NothingLost(b: Batch, calls: seq<AdapterCall>)
    requires ValidBatch(b)
    ensures 0.0 <= Lost(b, calls)
    ensures Lost(b, calls) == 0.0 <==> NoneForgotten(b, calls)
  {
    if calls != [] {
      var n := |calls| - 1;
      NothingLost(b, calls[..n]);
      assert calls == calls[..n] + [calls[n]];
    }
  }

  /** Less is lost by fewer calls. */
  lemma LostGrows(b: Batch, x: seq<AdapterCall>, y: seq<AdapterCall>)
    requires ValidBatch(b) && x <= y
    ensures Lost(b, x) <= Lost(b, y)
  {
    assert y == x + y[|x|..];
    LostTogether(b, x, y[|x|..]);
    NothingLost(b, y[|x|..]);
  }

  // ----- one task -----

  /** After any turns the spend has grown by what the new records are charged again, and what they forget. */
  lemma {:induction false} SpendIsRecorded(b: Batch, t: nat, order: seq<System>, st: State)
    requires ValidBatch(b) && forall a :: a in order ==> a in b.systems
    ensures
      var end := Turns(b, t, order, st);
      && end.spent - Recorded(b, b.systems, end.slice) - Lost(b, end.calls)
         == st.spent - Recorded(b, b.systems, st.slice) - Lost(b, st.calls)
      && st.slice.Keys <= end.slice.Keys && st.calls <= end.calls
      && forall a :: a in order ==> a in end.slice
  {
    if order != [] {
      var rest, a := order[..|order| - 1], order[|order| - 1];
      assert order == rest + [a];
      SpendIsRecorded(b, t, rest, st);
      TurnIsRecorded(b, t, a, Turns(b, t, rest, st));
    }
  }

  lemma TurnIsRecorded(b: Batch, t: nat, a: System, st: State)
    requires ValidBatch(b) && a in b.systems
    ensures
      var end := Turn(b, t, a, st);
      && end.spent - Recorded(b, b.systems, end.slice) - Lost(b, end.calls)
         == st.spent - Recorded(b, b.systems, st.slice) - Lost(b, st.calls)
      && st.slice.Keys <= end.slice.Keys && st.calls <= end.calls && a in end.slice
  {
    var end := Turn(b, t, a, st);
    if a !in st.slice {
      RecordedWith(b, b.systems, st.slice, a, end.slice[a]);
      ChargedTheSame(b, b.adapter(a, t));
      if end.calls != st.calls { LostTogether(b, st.calls, [AdapterCall(a, t, st.spent)]); }
    }
  }

  lemma {:induction false} Skips(b: Batch, t: nat, order: seq<System>, st: State)
    requires forall a :: a in order ==> a in st.slice
    ensures Turns(b, t, order, st) == st
  {
    if order != [] {
      assert order == order[..|order| - 1] + [order[|order| - 1]];
      Skips(b, t, order[..|order| - 1], st);
    }
  }

  /** A slice after any turns, found again: its first loop changes no record and charges what they are charged again. */
  lemma CollectingAfterTurns(b: Batch, t: nat, st: State, order: seq<System>, spent: real, log: seq<AdapterCall>)
    requires ValidBatch(b) && forall a :: a in order ==> a in b.systems
    ensures
      var mid := Turns(b, t, order, Collect(b, b.systems, st));
      && Collect(b, b.systems, State(mid.slice, spent, log)) == State(mid.slice, spent + Recorded(b, b.systems, mid.slice), log)
      && mid.spent == st.spent + Recorded(b, b.systems, mid.slice) + (Lost(b, mid.calls) - Lost(b, st.calls))
      && st.calls <= mid.calls && forall a :: a in order ==> a in mid.slice
  {
    Collected(b, b.systems, st);
    UnavailableIsFree(b, b.systems, b.systems, st.slice);
    var start := Collect(b, b.systems, st);
    SpendIsRecorded(b, t, order, start);
    var mid := Turns(b, t, order, start);
    Collected(b, b.systems, State(mid.slice, spent, log));
    KeptUnavailable(b, st.slice, start.slice, mid.slice);
  }

  lemma KeptUnavailable(b: Batch, slice: Slice, start: Slice, mid: Slice)
    requires start == WithUnavailable(b, b.systems, slice) && start.Keys <= mid.Keys
    ensures WithUnavailable(b, b.systems, mid) == mid
  {
  }

  /** A task that was finished is left as it is, with no call, and charged what it spent but for what is forgotten. */
  lemma FinishedTaskStays(b: Batch, t: nat, st: State, spent: real, log: seq<AdapterCall>)
    requires ValidBatch(b)
    ensures
      var end := Task(b, t, st);
      && Task(b, t, State(end.slice, spent, log)) ==
           State(end.slice, spent + (end.spent - st.spent) - (Lost(b, end.calls) - Lost(b, st.calls)), log)
      && st.calls <= end.calls
  {
    OrderIsFair(b, t);
    var order := Order(b, t);
    CollectingAfterTurns(b, t, st, order, spent, log);
    Skips(b, t, order, Collect(b, b.systems, State(Task(b, t, st).slice, spent, log)));
  }

  // ----- where a run can stop -----

  /** In a task's first loop after k systems, in its second after k turns, or inside the call of the turn after those. */
  datatype Point = InFirst(k: nat) | InSecond(k: nat) | InCall(k: nat)

  /** What the run has recorded and counted when it stops. */
  function StoppedAt(b: Batch, t: nat, st: State, at: Point): State {
    if at.InFirst? then Collect(b, if at.k <= |b.systems| then b.systems[..at.k] else b.systems, st)
    else PartOfTask(b, t, st, at.k)
  }

  /** The turn makes a call. */
  predicate Calls(b: Batch, t: nat, a: System, st: State) {
    a !in st.slice && b.supports(a, t) && st.spent + b.perTask <= b.total
  }

  /** The call it stopped inside, if any: made, and not recorded. */
  function CutOff(b: Batch, t: nat, st: State, at: Point): (cut: seq<AdapterCall>)
    ensures |cut| <= 1
  {
    var order, mid := Order(b, t), StoppedAt(b, t, st, at);
    if at.InCall? && at.k < |order| && Calls(b, t, order[at.k], mid) then [AdapterCall(order[at.k], t, mid.spent)] else []
  }

  lemma CollectingGoesOn(b: Batch, st: State, k: nat, log: seq<AdapterCall>)
    requires ValidBatch(b) && k <= |b.systems|
    ensures
      Collect(b, b.systems, State(Collect(b, b.systems[..k], st).slice, st.spent, log)) == Collect(b, b.systems, st).(calls := log)
  {
    var some := b.systems[..k];
    Collected(b, some, st);
    Collected(b, b.systems, st);
    Collected(b, b.systems, State(WithUnavailable(b, some, st.slice), st.spent, log));
    UnavailableIsFree(b, b.systems, some, st.slice);
    UnavailableTwice(b, b.systems, some, st.slice);
  }

  lemma UnavailableTwice(b: Batch, all: seq<System>, some: seq<System>, slice: Slice)
    requires forall a :: a in some ==> a in all
    ensures WithUnavailable(b, all, WithUnavailable(b, some, slice)) == WithUnavailable(b, all, slice)
  {
  }

  /** A task stopped anywhere and run again ends as if it had not stopped, if nothing it had recorded is forgotten. */
  lemma TaskResumes(b: Batch, t: nat, st: State, at: Point)
    requires ValidBatch(b) && Lost(b, StoppedAt(b, t, st, at).calls) == Lost(b, st.calls)
    ensures
      var mid := StoppedAt(b, t, st, at);
      && Task(b, t, State(mid.slice, st.spent, mid.calls)) == Task(b, t, st)
      && mid.calls <= Task(b, t, st).calls
  {
    OrderIsFair(b, t);
    var order, mid := Order(b, t), StoppedAt(b, t, st, at);
    if at.InFirst? {
      var k := if at.k <= |b.systems| then at.k else |b.systems|;
      assert b.systems[..|b.systems|] == b.systems;
      Collected(b, b.systems[..k], st);
      Collected(b, b.systems, st);
      CollectingGoesOn(b, st, k, st.calls);
      SpendIsRecorded(b, t, order, Collect(b, b.systems, st));
    } else {
      var k := if at.k <= |order| then at.k else |order|;
      assert order[..|order|] == order;
      GoesOn(b, t, st, k);
    }
  }

  lemma GoesOn(b: Batch, t: nat, st: State, k: nat)
    requires ValidBatch(b) && k <= |Order(b, t)| && Lost(b, PartOfTask(b, t, st, k).calls) == Lost(b, st.calls)
    ensures
      var mid := PartOfTask(b, t, st, k);
      Task(b, t, State(mid.slice, st.spent, mid.calls)) == Task(b, t, st) && mid.calls <= Task(b, t, st).calls
  {
    var order, mid := Order(b, t), PartOfTask(b, t, st, k);
    Regained(b, t, st, k);
    assert order == order[..k] + order[k..];
    OrderIsFair(b, t);
    TurnsGoOn(b, t, order[..k], order[k..], Collect(b, b.systems, st));
  }

  lemma Regained(b: Batch, t: nat, st: State, k: nat)
    requires ValidBatch(b) && k <= |Order(b, t)| && Lost(b, PartOfTask(b, t, st, k).calls) == Lost(b, st.calls)
    ensures
      var mid := PartOfTask(b, t, st, k);
      && Collect(b, b.systems, State(mid.slice, st.spent, mid.calls)) == mid
      && forall a :: a in Order(b, t)[..k] ==> a in mid.slice
  {
    OrderIsFair(b, t);
    CollectingAfterTurns(b, t, st, Order(b, t)[..k], st.spent, PartOfTask(b, t, st, k).calls);
  }

  lemma TurnsGoOn(b: Batch, t: nat, first: seq<System>, rest: seq<System>, start: State)
    requires ValidBatch(b) && forall a :: a in first + rest ==> a in b.systems
    requires forall a :: a in first ==> a in Turns(b, t, first, start).slice
    ensures
      var mid := Turns(b, t, first, start);
      Turns(b, t, first + rest, mid) == Turns(b, t, first + rest, start) && mid.calls <= Turns(b, t, first + rest, start).calls
  {
    var mid := Turns(b, t, first, start);
    Skips(b, t, first, mid);
    TurnsSplit(b, t, first, rest, mid);
    TurnsSplit(b, t, first, rest, start);
    SpendIsRecorded(b, t, rest, mid);
  }

  // ----- the batch -----

  /** A store, and the calls made so far over all runs. */
  datatype Progress = Progress(store: seq<Slice>, log: seq<AdapterCall>)

  /** The finished slices, the one it stopped in, and those it had not come to. */
  function Splice(front: seq<Slice>, x: Slice, all: seq<Slice>): (s: seq<Slice>)
    requires |front| < |all|
    ensures |s| == |all| && s[|front|] == x
    ensures forall i :: 0 <= i < |front| ==> s[i] == front[i]
    ensures forall i :: |front| < i < |all| ==> s[i] == all[i]
  {
    front + [x] + all[|front| + 1..]
  }

  /** Task t as the run of `p` comes to it. */
  function Arriving(b: Batch, p: Progress, t: nat): State
    requires t < |p.store|
  {
    var r := Run(b, p.store, p.log, t);
    State(p.store[t], r.spent, r.calls)
  }

  /** What the run of `p` has recorded when it stops in task t, and the calls it recorded. */
  function Recording(b: Batch, p: Progress, t: nat, at: Point): (q: Progress)
    requires t < |p.store|
    ensures |q.store| == |p.store|
  {
    var mid := StoppedAt(b, t, Arriving(b, p, t), at);
    Progress(Splice(Run(b, p.store, p.log, t).store, mid.slice, p.store), mid.calls)
  }

  function Cut(b: Batch, p: Progress, t: nat, at: Point): (cut: seq<AdapterCall>)
    requires t < |p.store|
    ensures |cut| <= 1
  {
    CutOff(b, t, Arriving(b, p, t), at)
  }

  /** What it leaves: the same, and the call it stopped inside was made too. */
  function Interrupted(b: Batch, p: Progress, t: nat, at: Point): (q: Progress)
    requires t < |p.store|
    ensures |q.store| == |p.store|
  {
    var q := Recording(b, p, t, at);
    q.(log := q.log + Cut(b, p, t, at))
  }

  /** A run's calls only grow. */
  lemma {:induction false} CallsGrow(b: Batch, store: seq<Slice>, log: seq<AdapterCall>, i: nat, n: nat)
    requires ValidBatch(b) && i <= n <= |store|
    ensures Run(b, store, log, i).calls <= Run(b, store, log, n).calls
    decreases n
  {
    if i < n {
      CallsGrow(b, store, log, i, n - 1);
      var r := Run(b, store, log, n - 1);
      FinishedTaskStays(b, n - 1, State(store[n - 1], r.spent, r.calls), 0.0, []);
    }
  }

  /** The calls of earlier runs come before a run's own and change nothing else. */
  lemma {:induction false} TurnsAfter(b: Batch, t: nat, order: seq<System>, st: State, log: seq<AdapterCall>)
    ensures Turns(b, t, order, st.(calls := log + st.calls)) == Turns(b, t, order, st).(calls := log + Turns(b, t, order, st).calls)
  {
    if order != [] {
      TurnsAfter(b, t, order[..|order| - 1], st, log);
      var before := Turns(b, t, order[..|order| - 1], st);
      TurnAfter(b, t, order[|order| - 1], before, log);
    }
  }

  lemma TurnAfter(b: Batch, t: nat, a: System, st: State, log: seq<AdapterCall>)
    ensures Turn(b, t, a, st.(calls := log + st.calls)) == Turn(b, t, a, st).(calls := log + Turn(b, t, a, st).calls)
  {
    assert log + st.calls + [AdapterCall(a, t, st.spent)] == log + (st.calls + [AdapterCall(a, t, st.spent)]);
  }

  lemma TaskAfter(b: Batch, t: nat, st: State, log: seq<AdapterCall>)
    requires ValidBatch(b)
    ensures Task(b, t, st.(calls := log + st.calls)) == Task(b, t, st).(calls := log + Task(b, t, st).calls)
  {
    Collected(b, b.systems, st);
    Collected(b, b.systems, st.(calls := log + st.calls));
    TurnsAfter(b, t, Order(b, t), Collect(b, b.systems, st), log);
  }

  lemma {:induction false} RunAfter(b: Batch, store: seq<Slice>, log: seq<AdapterCall>, n: nat)
    requires ValidBatch(b) && n <= |store|
    ensures Run(b, store, log, n) == Run(b, store, [], n).(calls := log + Run(b, store, [], n).calls)
  {
    if n > 0 {
      RunAfter(b, store, log, n - 1);
      ExtendAfter(b, Run(b, store, [], n - 1), store[n - 1], n - 1, log);
    }
  }

  lemma ExtendAfter(b: Batch, r: BatchSpec.Result, slice: Slice, t: nat, log: seq<AdapterCall>)
    requires ValidBatch(b)
    ensures Extend(b, r.(calls := log + r.calls), slice, t) == Extend(b, r, slice, t).(calls := log + Extend(b, r, slice, t).calls)
  {
    TaskAfter(b, t, State(slice, r.spent, r.calls), log);
  }

  /** The first n tasks of the run of `p`, found again: they call nothing and spend what is not forgotten. */
  ghost predicate StayFinished(b: Batch, p: Progress, store: seq<Slice>, log: seq<AdapterCall>, n: nat)
    requires n <= |p.store| == |store|
  {
    var r := Run(b, p.store, p.log, n);
    && Run(b, store, log, n) == BatchSpec.Result(r.store, r.spent - (Lost(b, r.calls) - Lost(b, p.log)), log)
    && p.log <= r.calls
  }

  /** So are the tasks it had finished. */
  lemma {:induction false} FinishedTasksStay(b: Batch, p: Progress, store: seq<Slice>, log: seq<AdapterCall>, t: nat, n: nat)
    requires ValidBatch(b) && n <= t <= |p.store| == |store|
    requires forall i :: 0 <= i < t ==> store[i] == Run(b, p.store, p.log, t).store[i]
    ensures StayFinished(b, p, store, log, n)
  {
    if n > 0 {
      FinishedTasksStay(b, p, store, log, t, n - 1);
      RunSlices(b, p.store, p.log, t, n - 1);
      OneMoreFinished(b, p, store, log, n - 1);
    }
  }

  lemma OneMoreFinished(b: Batch, p: Progress, store: seq<Slice>, log: seq<AdapterCall>, n: nat)
    requires ValidBatch(b) && n < |p.store| == |store| && StayFinished(b, p, store, log, n)
    requires store[n] == Run(b, p.store, p.log, n + 1).store[n]
    ensures StayFinished(b, p, store, log, n + 1)
  {
    var r, r' := Run(b, p.store, p.log, n), Run(b, store, log, n);
    assert Run(b, p.store, p.log, n + 1) == Extend(b, r, p.store[n], n) && Run(b, store, log, n + 1) == Extend(b, r', store[n], n);
    OneFinished(b, r, r', p.store[n], store[n], n);
  }

  lemma OneFinished(b: Batch, r: BatchSpec.Result, r': BatchSpec.Result, slice: Slice, found: Slice, t: nat)
    requires ValidBatch(b) && r'.store == r.store && found == Extend(b, r, slice, t).store[|r.store|]
    ensures
      var end := Extend(b, r, slice, t);
      && Extend(b, r', found, t) ==
           BatchSpec.Result(end.store, r'.spent + (end.spent - r.spent) - (Lost(b, end.calls) - Lost(b, r.calls)), r'.calls)
      && r.calls <= end.calls
  {
    FinishedTaskStays(b, t, State(slice, r.spent, r.calls), r'.spent, r'.calls);
  }

  lemma {:induction false} RunSlices(b: Batch, store: seq<Slice>, log: seq<AdapterCall>, n: nat, i: nat)
    requires i < n <= |store|
    ensures Run(b, store, log, n).store[i] == Run(b, store, log, i + 1).store[i]
  {
    if i < n - 1 {
      RunSlices(b, store, log, n - 1, i);
      ExtendKeeps(b, Run(b, store, log, n - 1), store[n - 1], n - 1, i);
    }
  }

  lemma ExtendKeeps(b: Batch, r: BatchSpec.Result, slice: Slice, t: nat, i: nat)
    requires i < |r.store|
    ensures Extend(b, r, slice, t).store[i] == r.store[i]
  {
  }

  /** Two runs that agree after t tasks and find the same records in the rest agree throughout. */
  lemma {:induction false} SameFromHere(b: Batch, p: Progress, q: Progress, t: nat, n: nat)
    requires t <= n <= |p.store| == |q.store| && Run(b, q.store, q.log, t) == Run(b, p.store, p.log, t)
    requires forall i :: t <= i < |p.store| ==> q.store[i] == p.store[i]
    ensures Run(b, q.store, q.log, n) == Run(b, p.store, p.log, n)
    decreases n
  {
    if t < n {
      SameFromHere(b, p, q, t, n - 1);
    }
  }

  /** Nothing that the run of `p` records before it stops is forgotten. */
  ghost predicate Kept(b: Batch, p: Progress, t: nat, at: Point)
    requires t < |p.store|
  {
    Lost(b, Recording(b, p, t, at).log) == Lost(b, p.log)
  }

  lemma RecordedSoFar(b: Batch, p: Progress, t: nat, at: Point)
    requires ValidBatch(b) && t < |p.store|
    ensures
      var st, log := Arriving(b, p, t), Recording(b, p, t, at).log;
      p.log <= st.calls <= log && Lost(b, p.log) <= Lost(b, st.calls) <= Lost(b, log)
  {
    var st := Arriving(b, p, t);
    CallsGrow(b, p.store, p.log, 0, t);
    StoppedIsPart(b, t, st, at);
    LostGrows(b, p.log, st.calls);
    LostGrows(b, st.calls, StoppedAt(b, t, st, at).calls);
  }

  /** The task it stopped in. */
  lemma TheStoppedTask(b: Batch, p: Progress, t: nat, at: Point)
    requires ValidBatch(b) && t < |p.store| && Kept(b, p, t, at)
    ensures
      var q := Recording(b, p, t, at);
      Run(b, q.store, q.log, t + 1) == Run(b, p.store, p.log, t + 1)
  {
    var q, r := Recording(b, p, t, at), Run(b, p.store, p.log, t);
    assert Lost(b, q.log) == Lost(b, r.calls) == Lost(b, p.log) by { RecordedSoFar(b, p, t, at); }
    assert Run(b, q.store, q.log, t) == r.(calls := q.log) by { FinishedTasksStay(b, p, q.store, q.log, t, t); }
    ExtendResumes(b, r, p.store[t], t, at);
    assert Run(b, p.store, p.log, t + 1) == Extend(b, r, p.store[t], t);
    assert Run(b, q.store, q.log, t + 1) == Extend(b, r.(calls := q.log), q.store[t], t);
  }

  lemma ExtendResumes(b: Batch, r: BatchSpec.Result, slice: Slice, t: nat, at: Point)
    requires ValidBatch(b) && Lost(b, StoppedAt(b, t, State(slice, r.spent, r.calls), at).calls) == Lost(b, r.calls)
    ensures
      var mid := StoppedAt(b, t, State(slice, r.spent, r.calls), at);
      Extend(b, r.(calls := mid.calls), mid.slice, t) == Extend(b, r, slice, t)
  {
    TaskResumes(b, t, State(slice, r.spent, r.calls), at);
  }

  /** What is recorded when a task stops is part of what it does. */
  lemma StoppedIsPart(b: Batch, t: nat, st: State, at: Point)
    requires ValidBatch(b)
    ensures st.calls <= StoppedAt(b, t, st, at).calls <= Task(b, t, st).calls
  {
    if at.InFirst? {
      FirstLoopIsPart(b, t, st, at.k);
    } else {
      TurnsArePart(b, t, st, at.k);
    }
  }

  lemma FirstLoopIsPart(b: Batch, t: nat, st: State, k: nat)
    requires ValidBatch(b)
    ensures st.calls <= StoppedAt(b, t, st, InFirst(k)).calls <= Task(b, t, st).calls
  {
    OrderIsFair(b, t);
    Collected(b, b.systems, st);
    Collected(b, b.systems[..if k <= |b.systems| then k else |b.systems|], st);
    assert b.systems[..|b.systems|] == b.systems;
    SpendIsRecorded(b, t, Order(b, t), Collect(b, b.systems, st));
  }

  lemma TurnsArePart(b: Batch, t: nat, st: State, k: nat)
    requires ValidBatch(b)
    ensures st.calls <= PartOfTask(b, t, st, k).calls <= Task(b, t, st).calls
  {
    OrderIsFair(b, t);
    Collected(b, b.systems, st);
    var order, start := Order(b, t), Collect(b, b.systems, st);
    var k := if k <= |order| then k else |order|;
    assert order[..|order|] == order && order == order[..k] + order[k..];
    SpendIsRecorded(b, t, order[..k], start);
    TurnsSplit(b, t, order[..k], order[k..], start);
    SpendIsRecorded(b, t, order[k..], Turns(b, t, order[..k], start));
  }

  /** What was recorded, run again, reaches the store, the spend and the calls of a run that never stopped. */
  lemma WhatIsRecordedResumes(b: Batch, p: Progress, t: nat, at: Point)
    requires ValidBatch(b) && t < |p.store| && Kept(b, p, t, at)
    ensures
      var q := Recording(b, p, t, at);
      Run(b, q.store, q.log, |p.store|) == Run(b, p.store, p.log, |p.store|)
  {
    TheStoppedTask(b, p, t, at);
    SameFromHere(b, p, Recording(b, p, t, at), t + 1, |p.store|);
  }

  // ----- the calls, over all runs -----

  /** What a run calls. */
  function New(b: Batch, store: seq<Slice>): seq<AdapterCall> {
    Run(b, store, [], |store|).calls
  }

  /** Every call made in all: before, and by the run that finishes. */
  function Total(b: Batch, p: Progress): seq<AdapterCall> {
    p.log + New(b, p.store)
  }

  /** What the calls cost, whether or not they were recorded. */
  function Paid(b: Batch, calls: seq<AdapterCall>): real {
    if calls == [] then 0.0
    else var n := |calls| - 1; Paid(b, calls[..n]) + Charge(b, b.adapter(calls[n].system, calls[n].task))
  }

  lemma {:induction false} PaidTogether(b: Batch, x: seq<AdapterCall>, y: seq<AdapterCall>)
    ensures Paid(b, x + y) == Paid(b, x) + Paid(b, y)
  {
    if y == [] {
      assert x + y == x;
    } else {
      PaidTogether(b, x, y[..|y| - 1]);
      assert (x + y)[..|x + y| - 1] == x + y[..|y| - 1];
    }
  }

  /** The calls with the one at i made twice, or just the calls when none was cut off. */
  predicate Repeats(calls: seq<AdapterCall>, calls': seq<AdapterCall>, cut: seq<AdapterCall>, i: nat) {
    && i <= |calls| && calls' == calls[..i] + cut + calls[i..]
    && (cut != [] ==> i < |calls| && calls[i] == cut[0])
  }

  /** The turns skip what is recorded and then make the call. */
  lemma {:induction false} FirstCall(b: Batch, t: nat, order: seq<System>, k: nat, st: State)
    requires ValidBatch(b) && k < |order| && forall a :: a in order ==> a in b.systems
    requires (forall a :: a in order[..k] ==> a in st.slice) && Calls(b, t, order[k], st)
    ensures st.calls + [AdapterCall(order[k], t, st.spent)] <= Turns(b, t, order, st).calls
  {
    var first, rest := order[..k + 1], order[k + 1..];
    assert order == first + rest && first == order[..k] + [order[k]];
    Skips(b, t, order[..k], st);
    TurnsLast(b, t, order[..k], order[k], st);
    TurnsSplit(b, t, first, rest, st);
    SpendIsRecorded(b, t, rest, Turns(b, t, first, st));
  }

  /** Within the task, the first thing called is the call that was cut off, with at least as much room for it. */
  lemma NextInTask(b: Batch, t: nat, st: State, at: Point, spent: real)
    requires ValidBatch(b) && CutOff(b, t, st, at) != [] && spent <= st.spent
    ensures
      var c, mid := CutOff(b, t, st, at)[0], StoppedAt(b, t, st, at);
      [c.(spent := spent + c.spent - st.spent - (Lost(b, mid.calls) - Lost(b, st.calls)))] <= Task(b, t, State(mid.slice, spent, [])).calls
  {
    OrderIsFair(b, t);
    var order, mid := Order(b, t), StoppedAt(b, t, st, at);
    CollectingAfterTurns(b, t, st, order[..at.k], spent, []);
    LostGrows(b, st.calls, mid.calls);
    FirstCall(b, t, order, at.k, Collect(b, b.systems, State(mid.slice, spent, [])));
  }

  lemma CallsGrowOn(b: Batch, store: seq<Slice>, t: nat)
    requires ValidBatch(b) && t < |store|
    ensures Extend(b, Run(b, store, [], t), store[t], t).calls <= New(b, store)
  {
    CallsGrow(b, store, [], t + 1, |store|);
  }

  /** The first thing the resumed run calls is the call that was cut off. */
  lemma TheCutCallIsNext(b: Batch, p: Progress, t: nat, at: Point)
    requires ValidBatch(b) && t < |p.store| && Cut(b, p, t, at) != []
    ensures
      var q, c := Recording(b, p, t, at), Cut(b, p, t, at)[0];
      [c.(spent := c.spent - (Lost(b, q.log) - Lost(b, p.log)))] <= New(b, q.store)
  {
    var store := Recording(b, p, t, at).store;
    TheCutCallComes(b, p, t, at);
    CallsGrowOn(b, store, t);
  }

  lemma TheCutCallComes(b: Batch, p: Progress, t: nat, at: Point)
    requires ValidBatch(b) && t < |p.store| && Cut(b, p, t, at) != []
    ensures
      var q, c := Recording(b, p, t, at), Cut(b, p, t, at)[0];
      [c.(spent := c.spent - (Lost(b, q.log) - Lost(b, p.log)))] <= Extend(b, Run(b, q.store, [], t), q.store[t], t).calls
  {
    RecordedSoFar(b, p, t, at);
    FoundAgain(b, p, t, at);
    NextInRun(b, Run(b, Recording(b, p, t, at).store, [], t), t, Arriving(b, p, t), at);
  }

  lemma NextInRun(b: Batch, r: BatchSpec.Result, t: nat, st: State, at: Point)
    requires ValidBatch(b) && CutOff(b, t, st, at) != [] && r.calls == [] && r.spent <= st.spent
    ensures
      var c, mid := CutOff(b, t, st, at)[0], StoppedAt(b, t, st, at);
      var lost := Lost(b, mid.calls) - Lost(b, st.calls);
      [c.(spent := r.spent + c.spent - st.spent - lost)] <= Extend(b, r, mid.slice, t).calls
  {
    NextInTask(b, t, st, at, r.spent);
  }

  /** The tasks before the one it stopped in are found finished. */
  lemma FoundAgain(b: Batch, p: Progress, t: nat, at: Point)
    requires ValidBatch(b) && t < |p.store|
    ensures
      var store, st := Recording(b, p, t, at).store, Arriving(b, p, t);
      Run(b, store, [], t).calls == [] && Run(b, store, [], t).spent == st.spent - (Lost(b, st.calls) - Lost(b, p.log))
  {
    FinishedTasksStay(b, p, Recording(b, p, t, at).store, [], t, t);
  }

  // ----- one stop -----

  /**
    The run that finishes reaches the store and the counted spend of one that never stopped; and in all exactly the
    same calls are made, but for the one that was cut off, which is made, and paid, twice.
  */
  ghost predicate Resumes(b: Batch, p: Progress, t: nat, at: Point)
    requires t < |p.store|
  {
    var q, n := Interrupted(b, p, t, at), |p.store|;
    && Run(b, q.store, [], n).store == Run(b, p.store, [], n).store
    && Run(b, q.store, [], n).spent == Run(b, p.store, [], n).spent
    && Repeats(Total(b, p), Total(b, q), Cut(b, p, t, at), |Recording(b, p, t, at).log|)
    && Paid(b, Total(b, q)) == Paid(b, Total(b, p)) + Paid(b, Cut(b, p, t, at))
  }

  lemma AStopResumes(b: Batch, p: Progress, t: nat, at: Point)
    requires ValidBatch(b) && t < |p.store| && Kept(b, p, t, at)
    ensures Resumes(b, p, t, at)
  {
    var q, cut, n := Recording(b, p, t, at), Cut(b, p, t, at), |p.store|;
    WhatIsRecordedResumes(b, p, t, at);
    if cut != [] { TheCutCallIsNext(b, p, t, at); }
    RunAfter(b, p.store, p.log, n);
    RunAfter(b, q.store, q.log, n);
    var total, left := Total(b, p), New(b, q.store);
    assert total == q.log + left;
    assert total[..|q.log|] == q.log && total[|q.log|..] == left;
    PaidTogether(b, q.log, left);
    PaidTogether(b, q.log, cut);
    PaidTogether(b, q.log + cut, left);
  }

  /** What the records of a whole store are charged when they are found again. */
  function StoreRecorded(b: Batch, store: seq<Slice>): real {
    if store == [] then 0.0
    else StoreRecorded(b, store[..|store| - 1]) + Recorded(b, b.systems, store[|store| - 1])
  }

  /** A run spends what its records are charged again, and what they forget. */
  lemma {:induction false} RunSpends(b: Batch, store: seq<Slice>, n: nat)
    requires ValidBatch(b) && n <= |store|
    ensures
      var r := Run(b, store, [], n);
      r.spent == StoreRecorded(b, r.store) + Lost(b, r.calls)
  {
    if n > 0 {
      RunSpends(b, store, n - 1);
      TaskSpends(b, Run(b, store, [], n - 1), store[n - 1], n - 1);
    }
  }

  lemma TaskSpends(b: Batch, r: BatchSpec.Result, slice: Slice, t: nat)
    requires ValidBatch(b)
    ensures
      var end := Extend(b, r, slice, t);
      end.spent - StoreRecorded(b, end.store) - Lost(b, end.calls) == r.spent - StoreRecorded(b, r.store) - Lost(b, r.calls)
  {
    var st := State(slice, r.spent, r.calls);
    OrderIsFair(b, t);
    Collected(b, b.systems, st);
    UnavailableIsFree(b, b.systems, b.systems, slice);
    SpendIsRecorded(b, t, Order(b, t), Collect(b, b.systems, st));
    var end := Extend(b, r, slice, t);
    assert end.store[..|r.store|] == r.store;
  }

  /** A stop that resumes had recorded nothing that is forgotten. */
  lemma OnlyKeptResumes(b: Batch, p: Progress, t: nat, at: Point)
    requires ValidBatch(b) && t < |p.store| && Resumes(b, p, t, at)
    ensures Kept(b, p, t, at)
  {
    var q, cut, log := Interrupted(b, p, t, at), Cut(b, p, t, at), Recording(b, p, t, at).log;
    RunSpends(b, p.store, |p.store|);
    RunSpends(b, q.store, |p.store|);
    LostTogether(b, p.log, New(b, p.store));
    LostTogether(b, q.log, New(b, q.store));
    LostTogether(b, log, cut);
    LostTwice(b, Total(b, p), Total(b, q), cut, |log|);
  }

  lemma LostTwice(b: Batch, calls: seq<AdapterCall>, calls': seq<AdapterCall>, cut: seq<AdapterCall>, i: nat)
    requires Repeats(calls, calls', cut, i)
    ensures Lost(b, calls') == Lost(b, calls) + Lost(b, cut)
  {
    assert calls == calls[..i] + calls[i..];
    LostTogether(b, calls[..i], calls[i..]);
    LostTogether(b, calls[..i], cut);
    LostTogether(b, calls[..i] + cut, calls[i..]);
  }

  // ----- what it had recorded -----

  /** What the run of `p` itself had called and recorded when it stopped. */
  function Made(b: Batch, p: Progress, t: nat, at: Point): seq<AdapterCall>
    requires t < |p.store|
  {
    Recording(b, p.(log := []), t, at).log
  }

  lemma PartAfter(b: Batch, t: nat, st: State, k: nat, log: seq<AdapterCall>)
    requires ValidBatch(b)
    ensures PartOfTask(b, t, st.(calls := log + st.calls), k).calls == log + PartOfTask(b, t, st, k).calls
  {
    Collected(b, b.systems, st);
    Collected(b, b.systems, st.(calls := log + st.calls));
    TurnsAfter(b, t, if k <= |Order(b, t)| then Order(b, t)[..k] else Order(b, t), Collect(b, b.systems, st), log);
  }

  lemma StoppedAfter(b: Batch, t: nat, st: State, at: Point, log: seq<AdapterCall>)
    requires ValidBatch(b)
    ensures StoppedAt(b, t, st.(calls := log + st.calls), at).calls == log + StoppedAt(b, t, st, at).calls
  {
    if at.InFirst? {
      var some := if at.k <= |b.systems| then b.systems[..at.k] else b.systems;
      Collected(b, some, st);
      Collected(b, some, st.(calls := log + st.calls));
    } else {
      PartAfter(b, t, st, at.k, log);
    }
  }

  lemma MadeAfter(b: Batch, p: Progress, t: nat, at: Point)
    requires ValidBatch(b) && t < |p.store|
    ensures Recording(b, p, t, at).log == p.log + Made(b, p, t, at)
    ensures Kept(b, p, t, at) <==> NoneForgotten(b, Made(b, p, t, at))
  {
    RunAfter(b, p.store, p.log, t);
    StoppedAfter(b, t, Arriving(b, p.(log := []), t), at, p.log);
    LostTogether(b, p.log, Made(b, p, t, at));
    NothingLost(b, Made(b, p, t, at));
  }

  /** A stop resumes if and only if nothing the run had recorded by then is forgotten. */
  lemma ResumingIsExact(b: Batch, p: Progress, t: nat, at: Point)
    requires ValidBatch(b) && t < |p.store|
    ensures Resumes(b, p, t, at) <==> NoneForgotten(b, Made(b, p, t, at))
  {
    MadeAfter(b, p, t, at);
    if Kept(b, p, t, at) { AStopResumes(b, p, t, at); }
    if Resumes(b, p, t, at) { OnlyKeptResumes(b, p, t, at); }
  }

  /** The last stop of a run: after every turn of its last task. */
  lemma TheLastStop(b: Batch, p: Progress)
    requires |p.store| > 0
    ensures Made(b, p, |p.store| - 1, InSecond(|Order(b, |p.store| - 1)|)) == New(b, p.store)
  {
    var t := |p.store| - 1;
    assert Order(b, t)[..|Order(b, t)|] == Order(b, t);
  }

  lemma MadeIsPart(b: Batch, p: Progress, t: nat, at: Point)
    requires ValidBatch(b) && t < |p.store|
    ensures Made(b, p, t, at) <= New(b, p.store)
  {
    StoppedIsPart(b, t, Arriving(b, p.(log := []), t), at);
    CallsGrowOn(b, p.store, t);
  }

  /** So every stop of a run resumes if and only if nothing the uninterrupted run calls is forgotten. */
  lemma EveryStopResumesExactly(b: Batch, p: Progress)
    requires ValidBatch(b)
    ensures (forall t: nat, at: Point :: t < |p.store| ==> Resumes(b, p, t, at)) <==> NoneForgotten(b, New(b, p.store))
  {
    if NoneForgotten(b, New(b, p.store)) {
      forall t: nat, at: Point | t < |p.store| ensures Resumes(b, p, t, at) {
        MadeIsPart(b, p, t, at);
        ResumingIsExact(b, p, t, at);
      }
    } else {
      assert |p.store| > 0;
      TheLastStop(b, p);
      ResumingIsExact(b, p, |p.store| - 1, InSecond(|Order(b, |p.store| - 1)|));
    }
  }
}
