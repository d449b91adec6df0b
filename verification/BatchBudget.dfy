/** What one run of a batch calls and spends (web/lib/benchmark/runner.ts:182-217). */
module BatchBudget {
  import opened Common
  import opened BatchSpec

  ghost predicate CalledOnce(log: seq<AdapterCall>) {
    forall i, j :: 0 <= i < j < |log| ==> (log[i].system, log[i].task) != (log[j].system, log[j].task)
  }

  /** No two of the calls are the same, and each has its record. */
  ghost predicate OneEach(store: seq<Slice>, log: seq<AdapterCall>) {
    && CalledOnce(log)
    && forall c :: c in log ==> c.task < |store| && c.system in store[c.task]
  }

  lemma OneEachGrows(store: seq<Slice>, log: seq<AdapterCall>, t: nat, slice: Slice, slice': Slice)
    requires t < |store| && OneEach(store[t := slice], log) && slice.Keys <= slice'.Keys
    ensures OneEach(store[t := slice'], log)
  {
    forall c | c in log ensures c.system in store[t := slice'][c.task] {
      assert c.system in store[t := slice][c.task];
    }
  }

  lemma CollectKeepsOneEach(b: Batch, systems: seq<System>, store: seq<Slice>, t: nat, st: State)
    requires DistinctSystems(systems) && t < |store| && OneEach(store[t := st.slice], st.calls)
    ensures OneEach(store[t := Collect(b, systems, st).slice], Collect(b, systems, st).calls)
  {
    Collected(b, systems, st);
    OneEachGrows(store, st.calls, t, st.slice, WithUnavailable(b, systems, st.slice));
  }

  lemma {:induction false} TurnsKeepOneEach(b: Batch, order: seq<System>, store: seq<Slice>, t: nat, st: State)
    requires t < |store| && OneEach(store[t := st.slice], st.calls)
    ensures OneEach(store[t := Turns(b, t, order, st).slice], Turns(b, t, order, st).calls)
  {
    if order != [] {
      TurnsKeepOneEach(b, order[..|order| - 1], store, t, st);
      TurnKeepsOneEach(b, order[|order| - 1], store, t, Turns(b, t, order[..|order| - 1], st));
    }
  }

  lemma TurnKeepsOneEach(b: Batch, a: System, store: seq<Slice>, t: nat, st: State)
    requires t < |store| && OneEach(store[t := st.slice], st.calls)
    ensures OneEach(store[t := Turn(b, t, a, st).slice], Turn(b, t, a, st).calls)
  {
    var end := Turn(b, t, a, st);
    OneEachGrows(store, st.calls, t, st.slice, end.slice);
    if end.calls != st.calls {
      forall c | c in st.calls ensures !(c.system == a && c.task == t) {
        assert c.system in store[t := st.slice][c.task];
      }
      assert forall i :: 0 <= i < |st.calls| ==> st.calls[i] in st.calls;
    }
  }

  /** A run makes no call that has its record, and none twice; `store` and `log` may come from runs before it. */
  lemma {:induction false} RunKeepsOneEach(b: Batch, store: seq<Slice>, log: seq<AdapterCall>, n: nat)
    requires ValidBatch(b) && n <= |store| && OneEach(store, log)
    ensures OneEach(Run(b, store, log, n).store + store[n..], Run(b, store, log, n).calls)
  {
    if n == 0 {
      assert [] + store[0..] == store;
    } else {
      RunKeepsOneEach(b, store, log, n - 1);
      var r, t := Run(b, store, log, n - 1), n - 1;
      var now, st := r.store + store[t..], State(store[t], r.spent, r.calls);
      assert now == now[t := store[t]];
      CollectKeepsOneEach(b, b.systems, now, t, st);
      TurnsKeepOneEach(b, Order(b, t), now, t, Collect(b, b.systems, st));
      assert now[t := Task(b, t, st).slice] == Run(b, store, log, n).store + store[n..];
    }
  }

  ghost predicate WithinBudget(b: Batch, log: seq<AdapterCall>) {
    forall c :: c in log ==> c.spent + b.perTask <= b.total
  }

  lemma {:induction false} TurnsFit(b: Batch, t: nat, order: seq<System>, st: State)
    requires WithinBudget(b, st.calls)
    ensures WithinBudget(b, Turns(b, t, order, st).calls)
  {
    if order != [] { TurnsFit(b, t, order[..|order| - 1], st); }
  }

  /** Every call started with room for its whole task limit. */
  lemma {:induction false} EveryCallHasRoom(b: Batch, store: seq<Slice>, log: seq<AdapterCall>, n: nat)
    requires ValidBatch(b) && n <= |store| && WithinBudget(b, log)
    ensures WithinBudget(b, Run(b, store, log, n).calls)
  {
    if n > 0 {
      EveryCallHasRoom(b, store, log, n - 1);
      var r := Run(b, store, log, n - 1);
      var st := State(store[n - 1], r.spent, r.calls);
      Collected(b, b.systems, st);
      TurnsFit(b, n - 1, Order(b, n - 1), Collect(b, b.systems, st));
    }
  }

  ghost predicate CostsAreNotNegative(b: Batch, store: seq<Slice>) {
    && (forall a, t :: b.adapter(a, t).Ran? && b.adapter(a, t).cost.Some? ==> 0.0 <= b.adapter(a, t).cost.value)
    && forall s: Slice, a: System :: s in store && a in s && s[a].cost.Some? ==> 0.0 <= s[a].cost.value
  }

  lemma {:induction false} RecordedIsNotNegative(b: Batch, systems: seq<System>, slice: Slice)
    requires ValidBatch(b) && forall a :: a in slice && slice[a].cost.Some? ==> 0.0 <= slice[a].cost.value
    ensures 0.0 <= Recorded(b, systems, slice)
  {
    if systems != [] { RecordedIsNotNegative(b, systems[..|systems| - 1], slice); }
  }

  /** No room for a task's limit. */
  predicate Exhausted(b: Batch, spent: real) {
    spent + b.perTask > b.total
  }

  lemma {:induction false} TurnsStop(b: Batch, t: nat, order: seq<System>, st: State)
    requires Exhausted(b, st.spent)
    ensures Turns(b, t, order, st).calls == st.calls && Turns(b, t, order, st).spent == st.spent
  {
    if order != [] { TurnsStop(b, t, order[..|order| - 1], st); }
  }

  /** A task after its first loop and k turns, or all of them. */
  function PartOfTask(b: Batch, t: nat, st: State, k: nat): State {
    var order := Order(b, t);
    Turns(b, t, if k <= |order| then order[..k] else order, Collect(b, b.systems, st))
  }

  /** Task t after k turns, in a run of the batch. */
  function AfterTurns(b: Batch, store: seq<Slice>, log: seq<AdapterCall>, t: nat, k: nat): State
    requires t < |store|
  {
    var r := Run(b, store, log, t);
    PartOfTask(b, t, State(store[t], r.spent, r.calls), k)
  }

  /** After n tasks no call has been made beyond these, and there is no room for another. */
  ghost predicate NoneAfter(b: Batch, store: seq<Slice>, log: seq<AdapterCall>, calls: seq<AdapterCall>, n: nat)
    requires n <= |store|
  {
    Run(b, store, log, n).calls == calls && Exhausted(b, Run(b, store, log, n).spent)
  }

  /** Once the budget refuses a task, in the middle of one or between two, no adapter runs again. */
  lemma ARefusalIsFinal(b: Batch, store: seq<Slice>, log: seq<AdapterCall>, t: nat, k: nat, n: nat)
    requires ValidBatch(b) && CostsAreNotNegative(b, store) && t < n <= |store| && k <= |Order(b, t)|
    requires Exhausted(b, AfterTurns(b, store, log, t, k).spent)
    ensures NoneAfter(b, store, log, AfterTurns(b, store, log, t, k).calls, n)
  {
    RefusedInTask(b, store, log, t, k);
    RefusedFrom(b, store, log, AfterTurns(b, store, log, t, k).calls, t + 1, n);
  }

  lemma {:induction false} RefusedFrom(b: Batch, store: seq<Slice>, log: seq<AdapterCall>, calls: seq<AdapterCall>,
                                       m: nat, n: nat)
    requires ValidBatch(b) && CostsAreNotNegative(b, store) && m <= n <= |store| && NoneAfter(b, store, log, calls, m)
    ensures NoneAfter(b, store, log, calls, n)
    decreases n - m
  {
    if m < n {
      RefusedNext(b, store, log, calls, m);
      RefusedFrom(b, store, log, calls, m + 1, n);
    }
  }

  lemma RefusedInTask(b: Batch, store: seq<Slice>, log: seq<AdapterCall>, t: nat, k: nat)
    requires t < |store| && k <= |Order(b, t)| && Exhausted(b, AfterTurns(b, store, log, t, k).spent)
    ensures NoneAfter(b, store, log, AfterTurns(b, store, log, t, k).calls, t + 1)
  {
    var r := Run(b, store, log, t);
    TheRestOfTheTask(b, t, k, State(store[t], r.spent, r.calls));
  }

  lemma RefusedNext(b: Batch, store: seq<Slice>, log: seq<AdapterCall>, calls: seq<AdapterCall>, n: nat)
    requires ValidBatch(b) && CostsAreNotNegative(b, store) && n < |store| && NoneAfter(b, store, log, calls, n)
    ensures NoneAfter(b, store, log, calls, n + 1)
  {
    var r := Run(b, store, log, n);
    assert store[n] in store;
    NoTaskRuns(b, n, State(store[n], r.spent, r.calls));
  }

  lemma TheRestOfTheTask(b: Batch, t: nat, k: nat, st: State)
    requires k <= |Order(b, t)| && Exhausted(b, PartOfTask(b, t, st, k).spent)
    ensures Task(b, t, st).calls == PartOfTask(b, t, st, k).calls && Exhausted(b, Task(b, t, st).spent)
  {
    var order, start := Order(b, t), Collect(b, b.systems, st);
    assert order == order[..k] + order[k..];
    TurnsSplit(b, t, order[..k], order[k..], start);
    TurnsStop(b, t, order[k..], Turns(b, t, order[..k], start));
  }

  lemma NoTaskRuns(b: Batch, t: nat, st: State)
    requires ValidBatch(b) && Exhausted(b, st.spent)
    requires forall a :: a in st.slice && st.slice[a].cost.Some? ==> 0.0 <= st.slice[a].cost.value
    ensures Task(b, t, st).calls == st.calls && Exhausted(b, Task(b, t, st).spent)
  {
    Collected(b, b.systems, st);
    RecordedIsNotNegative(b, b.systems, st.slice);
    TurnsStop(b, t, Order(b, t), Collect(b, b.systems, st));
  }

  lemma {:induction false} TurnsSplit(b: Batch, t: nat, first: seq<System>, rest: seq<System>, st: State)
    ensures Turns(b, t, first + rest, st) == Turns(b, t, rest, Turns(b, t, first, st))
    decreases |rest|
  {
    if rest == [] {
      assert first + rest == first;
    } else {
      var n := |rest| - 1;
      TurnsSplit(b, t, first, rest[..n], st);
      TurnsLast(b, t, first + rest[..n], rest[n], st);
      assert first + rest == first + rest[..n] + [rest[n]];
    }
  }

  lemma TurnsLast(b: Batch, t: nat, order: seq<System>, a: System, st: State)
    ensures Turns(b, t, order + [a], st) == Turn(b, t, a, Turns(b, t, order, st))
  {
  }

  /** No call costs more than its task's limit. */
  ghost predicate CostsFit(b: Batch) {
    forall a, t :: Charge(b, b.adapter(a, t)) <= b.perTask
  }

  /** If no call costs more than its task's limit, a batch never spends more than its total. */
  lemma {:induction false} TheTotalHolds(b: Batch, n: nat, empty: seq<Slice>)
    requires ValidBatch(b) && n <= |empty| && forall i :: 0 <= i < |empty| ==> empty[i] == map[]
    requires CostsFit(b)
    ensures Run(b, empty, [], n).spent <= b.total
  {
    if n > 0 {
      TheTotalHolds(b, n - 1, empty);
      var r := Run(b, empty, [], n - 1);
      var st := State(map[], r.spent, r.calls);
      Collected(b, b.systems, st);
      NothingRecorded(b, b.systems);
      TurnsStayWithin(b, n - 1, Order(b, n - 1), Collect(b, b.systems, st));
    }
  }

  lemma {:induction false} NothingRecorded(b: Batch, systems: seq<System>)
    ensures Recorded(b, systems, map[]) == 0.0
  {
    if systems != [] { NothingRecorded(b, systems[..|systems| - 1]); }
  }

  lemma {:induction false} TurnsStayWithin(b: Batch, t: nat, order: seq<System>, st: State)
    requires st.spent <= b.total && CostsFit(b)
    ensures Turns(b, t, order, st).spent <= b.total
  {
    if order != [] { TurnsStayWithin(b, t, order[..|order| - 1], st); }
  }

  /** A task of a batch with one system. */
  lemma OneSystem(b: Batch, t: nat, st: State)
    requires b.systems == [0] && b.available(0)
    ensures Order(b, t) == [0]
    ensures Task(b, t, st) ==
      if 0 in st.slice then st.(spent := st.spent + ChargeAgain(b, st.slice[0])) else Turn(b, t, 0, st)
  {
    assert Runnable(b, []) == [] && Runnable(b, [0]) == [0];
    assert Order(b, t) == [0];
    assert Collect(b, [], st) == st && [0][..0] == [];
    TurnsOne(b, t, 0, Collect(b, [0], st));
  }

  lemma TurnsOne(b: Batch, t: nat, a: System, st: State)
    ensures Turns(b, t, [a], st) == Turn(b, t, a, st)
  {
  }
}
