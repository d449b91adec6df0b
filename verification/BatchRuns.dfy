/** The runs a batch assembles, and when the scorecard accepts them (web/lib/benchmark/runner.ts:248-255). */
module BatchRuns {
  import opened Common
  import opened Canonical
  import opened BatchSpec
  import opened BatchBudget
  import opened BlindScoring
  import opened Scorecard
  import opened RunCheck

  // ----- where a record comes from -----

  /** A record some run of the batch wrote. */
  ghost predicate Written(b: Batch, t: nat, a: System, r: Record) {
    r in {UNAVAILABLE, CANNOT_EXPRESS, REFUSED} || r == RecordOf(b, b.adapter(a, t))
  }

  ghost predicate WrittenSlice(b: Batch, t: nat, slice: Slice) {
    forall a :: a in slice ==> Written(b, t, a, slice[a])
  }

  /** `log` has a call of the system for the task. */
  ghost predicate CalledFor(log: seq<AdapterCall>, a: System, t: nat) {
    exists c :: c in log && c.system == a && c.task == t
  }

  /** What was found is kept, a record of a call is what the adapter gave, and any other says why there was none. */
  ghost predicate Explained(b: Batch, t: nat, found: Slice, st: State) {
    && (forall a :: a in found ==> a in st.slice && st.slice[a] == found[a] && !CalledFor(st.calls, a, t))
    && (forall a :: a in st.slice && a !in found ==>
          if CalledFor(st.calls, a, t) then st.slice[a] == RecordOf(b, b.adapter(a, t))
          else st.slice[a] in {UNAVAILABLE, CANNOT_EXPRESS, REFUSED})
    && (forall a :: CalledFor(st.calls, a, t) ==> a in st.slice)
  }

  lemma CallsWith(log: seq<AdapterCall>, c: AdapterCall, t: nat)
    ensures forall a :: CalledFor(log + [c], a, t) <==> CalledFor(log, a, t) || (c.task == t && c.system == a)
  {
    assert c in log + [c];
  }

  lemma TurnExplains(b: Batch, t: nat, a: System, found: Slice, st: State)
    requires Explained(b, t, found, st)
    ensures Explained(b, t, found, Turn(b, t, a, st)) && a in Turn(b, t, a, st).slice
    ensures st.slice.Keys <= Turn(b, t, a, st).slice.Keys
  {
    CallsWith(st.calls, AdapterCall(a, t, st.spent), t);
  }

  lemma {:induction false} TurnsExplain(b: Batch, t: nat, order: seq<System>, found: Slice, st: State)
    requires Explained(b, t, found, st)
    ensures Explained(b, t, found, Turns(b, t, order, st))
    ensures st.slice.Keys <= Turns(b, t, order, st).slice.Keys && forall a :: a in order ==> a in Turns(b, t, order, st).slice
  {
    if order != [] {
      var rest, a := order[..|order| - 1], order[|order| - 1];
      TurnsExplain(b, t, rest, found, st);
      TurnExplains(b, t, a, found, Turns(b, t, rest, st));
      assert order == rest + [a];
    }
  }

  lemma TaskExplains(b: Batch, t: nat, st: State)
    requires ValidBatch(b) && forall a :: !CalledFor(st.calls, a, t)
    ensures Explained(b, t, st.slice, Task(b, t, st)) && forall a :: a in b.systems ==> a in Task(b, t, st).slice
  {
    OrderIsFair(b, t);
    Collected(b, b.systems, st);
    TurnsExplain(b, t, Order(b, t), st.slice, Collect(b, b.systems, st));
  }

  lemma {:induction false} TurnsCallTheirTask(b: Batch, t: nat, order: seq<System>, st: State)
    ensures forall c :: c in Turns(b, t, order, st).calls ==> c in st.calls || c.task == t
    ensures forall c :: c in st.calls ==> c in Turns(b, t, order, st).calls
  {
    if order != [] { TurnsCallTheirTask(b, t, order[..|order| - 1], st); }
  }

  lemma OnlyItsTask(b: Batch, t: nat, st: State)
    requires ValidBatch(b)
    ensures forall c :: c in Task(b, t, st).calls ==> c in st.calls || c.task == t
    ensures forall c :: c in st.calls ==> c in Task(b, t, st).calls
  {
    Collected(b, b.systems, st);
    TurnsCallTheirTask(b, t, Order(b, t), Collect(b, b.systems, st));
  }

  lemma {:induction false} CallsBefore(b: Batch, store: seq<Slice>, n: nat)
    requires ValidBatch(b) && n <= |store|
    ensures forall c :: c in Run(b, store, [], n).calls ==> c.task < n
  {
    if n > 0 {
      CallsBefore(b, store, n - 1);
      var r := Run(b, store, [], n - 1);
      OnlyItsTask(b, n - 1, State(store[n - 1], r.spent, r.calls));
    }
  }

  /** A batch leaves a record of every system for every task, and every record is explained by what it called. */
  lemma {:induction false} EverySystemIsRecorded(b: Batch, store: seq<Slice>, n: nat, t: nat)
    requires ValidBatch(b) && t < n <= |store|
    ensures
      var r := Run(b, store, [], n);
      && (forall a :: a in b.systems ==> a in r.store[t])
      && Explained(b, t, store[t], State(r.store[t], r.spent, r.calls))
    decreases n
  {
    var r := Run(b, store, [], n - 1);
    var st := State(store[n - 1], r.spent, r.calls);
    OnlyItsTask(b, n - 1, st);
    if t < n - 1 {
      EverySystemIsRecorded(b, store, n - 1, t);
      SameCallsFor(r.calls, Task(b, n - 1, st).calls, t);
    } else {
      CallsBefore(b, store, t);
      TaskExplains(b, t, st);
    }
  }

  lemma SameCallsFor(log: seq<AdapterCall>, log': seq<AdapterCall>, t: nat)
    requires forall c :: c in log' ==> c in log || c.task != t
    requires forall c :: c in log ==> c in log'
    ensures forall a :: CalledFor(log', a, t) <==> CalledFor(log, a, t)
  {
  }

  // ----- what the check makes of a record -----

  /** Items returned with a stop that is reported as unsupported. */
  predicate ItemsOnUnsupported(r: Record) {
    r.status == Unsupported && r.items != []
  }

  /** An adapter's stop of that kind, with an item that names its entity. */
  predicate KeepsItems(o: Outcome) {
    && o.Ran? && o.stopped in {Some(LoginRequired), Some(Paywall), Some(FeatureUnavailable)}
    && exists i :: 0 <= i < |o.items| && o.items[i].key.Some?
  }

  lemma KeptExactly(b: Batch, o: Outcome)
    ensures ItemsOnUnsupported(RecordOf(b, o)) <==> KeepsItems(o)
  {
    if o.Ran? { NamedItemsStay(o.items); }
  }

  lemma NamedItemsStay(items: seq<RawItem>)
    ensures Canonicalize(items) != [] <==> exists i :: 0 <= i < |items| && items[i].key.Some?
  {
    CanonicalRows(items);
    var out := Canonicalize(items);
    if i :| 0 <= i < |items| && items[i].key.Some? {
      assert items[i].key.value in Entities(items);
    }
    if out != [] {
      assert out[0].key in Keys(out);
    }
  }

  ghost predicate SensibleAdapters(b: Batch) {
    forall a, t :: b.adapter(a, t).Ran? ==>
      NotNegative(b.adapter(a, t).cost) && NotNegative(b.adapter(a, t).seconds) && |b.adapter(a, t).items| <= MAX_SAFE
  }

  // ----- the assembled run -----

  ghost predicate RecordedAll(store: seq<Slice>, a: System) {
    forall i :: 0 <= i < |store| ==> a in store[i]
  }

  /** What the run says of its batch: names, the task set, and how an entity's key is written. */
  datatype Labels = Labels(frozen: TaskSet, name: System -> string, key: Entity -> string, commit: Option<string>, evaluator: string)

  /** A key names a domain or a company. */
  ghost predicate KeysAreWritten(l: Labels) {
    forall e :: "domain:" <= l.key(e) || "name:" <= l.key(e)
  }

  function RowsOf(l: Labels, a: System, items: seq<CanonicalItem>, verdicts: Judged): seq<ResultRow> {
    seq(|items|, i requires 0 <= i < |items| =>
      ResultRow(Rank(items[i].rank), l.key(items[i].key),
                if (a, items[i].key) in verdicts then verdicts[(a, items[i].key)] else ALL_UNKNOWN))
  }

  function TaskOf(l: Labels, a: System, id: string, r: Record, verdicts: Judged): TaskRun {
    TaskRun(id, r.status, r.cost, r.seconds, RowsOf(l, a, r.items, verdicts))
  }

  /** A system's run: its record of every task, each with the verdicts mapped back to its rows. */
  ghost function Assemble(l: Labels, store: seq<Slice>, pools: seq<seq<Pooled>>, judged: seq<Judgement>,
                          a: System): RecordedRun
    requires |store| == |l.frozen.tasks| == |pools| == |judged| && RecordedAll(store, a)
  {
    RecordedRun(l.frozen.version, l.name(a), l.commit, l.evaluator,
      seq(|store|, i requires 0 <= i < |store| => TaskOf(l, a, l.frozen.tasks[i].id, store[i][a], MapBack(pools[i], judged[i]))))
  }

  /**
    A row of an assembled run says the rank and the entity of its own item, with the verdicts the evaluator gave on that
    item's blind id; one that was never pooled says unknown of every field.
  */
  lemma EachRowCarriesItsVerdicts(l: Labels, a: System, items: seq<CanonicalItem>, pool: seq<Pooled>, judged: Judgement, i: nat)
    requires Blind(pool) && i < |items|
    ensures
      var row := RowsOf(l, a, items, MapBack(pool, judged))[i];
      && row.rank == Rank(items[i].rank) && row.entity == l.key(items[i].key)
      && (forall j :: 0 <= j < |pool| && pool[j].system == a && pool[j].entity == items[i].key ==>
            row.verdicts == if pool[j].blind in judged then Normalised(judged[pool[j].blind]) else ALL_UNKNOWN)
      && (!IsPooled(pool, a, items[i].key) ==>
            row.verdicts == Verdicts(Some(Unknown), Some(Unknown), Some(Unknown), Some(Unknown)))
  {
    forall j | 0 <= j < |pool| && pool[j].system == a && pool[j].entity == items[i].key
      ensures (a, items[i].key) in MapBack(pool, judged)
      ensures MapBack(pool, judged)[(a, items[i].key)] ==
        if pool[j].blind in judged then Normalised(judged[pool[j].blind]) else ALL_UNKNOWN
    {
      EachItemGetsItsVerdict(pool, judged, j);
    }
    if (a, items[i].key) in MapBack(pool, judged) { OnlyPooledAreMapped(pool, judged, a, items[i].key); }
  }

  ghost predicate IsPooled(pool: seq<Pooled>, a: System, e: Entity) {
    exists j :: 0 <= j < |pool| && pool[j].system == a && pool[j].entity == e
  }

  lemma {:induction false} OnlyPooledAreMapped(pool: seq<Pooled>, judged: Judgement, a: System, e: Entity)
    requires (a, e) in MapBack(pool, judged)
    ensures IsPooled(pool, a, e)
  {
    var n := |pool| - 1;
    if (a, e) != (pool[n].system, pool[n].entity) {
      OnlyPooledAreMapped(pool[..n], judged, a, e);
      var j :| 0 <= j < n && pool[..n][j].system == a && pool[..n][j].entity == e;
      assert pool[j] == pool[..n][j];
    }
  }

  lemma {:induction false} Shorter(items: seq<RawItem>)
    ensures |Canonicalize(items)| <= |items|
  {
    if items != [] { Shorter(items[..|items| - 1]); }
  }

  lemma KeysAreIds(l: Labels, e: Entity)
    requires KeysAreWritten(l)
    ensures IsId(l.key(e))
  {
    assert "domain:" <= l.key(e) || "name:" <= l.key(e);
    assert l.key(e)[0] in {'d', 'n'} && !IsSpace(l.key(e)[0]);
  }

  /** The rows the runner writes pass the check, for lists short enough to number safely. */
  lemma WrittenRowsPass(l: Labels, a: System, items: seq<RawItem>, pool: seq<Pooled>, judged: Judgement)
    requires |items| <= MAX_SAFE && KeysAreWritten(l)
    ensures RowsPass(RowsOf(l, a, Canonicalize(items), MapBack(pool, judged)))
  {
    CanonicalRows(items);
    Shorter(items);
    MappedAreGiven(pool, judged);
    var out := Canonicalize(items);
    var rows := RowsOf(l, a, out, MapBack(pool, judged));
    forall i | 0 <= i < |rows| ensures IsId(rows[i].entity) { KeysAreIds(l, out[i].key); }
    var ranks := RanksOf(rows);
    forall k | 1 <= k <= |ranks| && k <= Highest(ranks) ensures k in RankSet(ranks) {
      assert ranks[k - 1].n == k;
    }
  }

  ghost predicate RecordPasses(l: Labels, a: System, r: Record, verdicts: Judged) {
    && NotNegative(r.cost) && NotNegative(r.seconds)
    && (r.status in {NotRun, Unsupported} ==> r.items == [])
    && RowsPass(RowsOf(l, a, r.items, verdicts))
  }

  lemma WrittenRecordPasses(b: Batch, l: Labels, t: nat, a: System, r: Record, pool: seq<Pooled>, judged: Judgement)
    requires ValidBatch(b) && SensibleAdapters(b) && KeysAreWritten(l) && Written(b, t, a, r)
    ensures RecordPasses(l, a, r, MapBack(pool, judged)) <==> !ItemsOnUnsupported(r)
  {
    WrittenRowsPass(l, a, [], pool, judged);
    if b.adapter(a, t).Ran? { WrittenRowsPass(l, a, b.adapter(a, t).items, pool, judged); }
  }

  lemma AssembledTask(l: Labels, a: System, i: nat, r: Record, verdicts: Judged)
    requires i < |l.frozen.tasks| && IsId(l.frozen.tasks[i].id)
    ensures TaskPasses(l.frozen, TaskOf(l, a, l.frozen.tasks[i].id, r, verdicts)) <==> RecordPasses(l, a, r, verdicts)
  {
    assert RowsOf(l, a, r.items, verdicts) == [] <==> r.items == [];
  }

  // ----- when it passes -----

  /** Nothing kept on an unsupported stop: not among the system's records in the store, nor by a call of this run. */
  ghost predicate NothingKept(b: Batch, store: seq<Slice>, a: System) {
    && (forall t :: 0 <= t < |store| && a in store[t] ==> !ItemsOnUnsupported(store[t][a]))
    && (forall c :: c in Run(b, store, [], |store|).calls && c.system == a ==> !KeepsItems(b.adapter(a, c.task)))
  }

  lemma RecordsKeepNothing(b: Batch, store: seq<Slice>, a: System, t: nat)
    requires ValidBatch(b) && t < |store| && a in b.systems && forall i :: 0 <= i < |store| ==> WrittenSlice(b, i, store[i])
    ensures
      var r := Run(b, store, [], |store|);
      && a in r.store[t] && Written(b, t, a, r.store[t][a])
      && (ItemsOnUnsupported(r.store[t][a]) <==>
            if a in store[t] then ItemsOnUnsupported(store[t][a]) else CalledFor(r.calls, a, t) && KeepsItems(b.adapter(a, t)))
  {
    EverySystemIsRecorded(b, store, |store|, t);
    KeptExactly(b, b.adapter(a, t));
  }

  lemma NothingKeptExactly(b: Batch, store: seq<Slice>, a: System)
    requires ValidBatch(b) && a in b.systems && forall i :: 0 <= i < |store| ==> WrittenSlice(b, i, store[i])
    ensures
      var end := Run(b, store, [], |store|).store;
      && RecordedAll(end, a)
      && (NothingKept(b, store, a) <==> forall t :: 0 <= t < |store| ==> !ItemsOnUnsupported(end[t][a]))
  {
    var r := Run(b, store, [], |store|);
    forall t: nat | t < |store|
      ensures a in r.store[t]
      ensures ItemsOnUnsupported(r.store[t][a]) <==>
        if a in store[t] then ItemsOnUnsupported(store[t][a]) else CalledFor(r.calls, a, t) && KeepsItems(b.adapter(a, t))
      ensures a in store[t] ==> !CalledFor(r.calls, a, t)
    {
      RecordsKeepNothing(b, store, a, t);
      EverySystemIsRecorded(b, store, |store|, t);
    }
    CallsBefore(b, store, |store|);
    forall c | c in r.calls && c.system == a ensures c.task < |store| && CalledFor(r.calls, a, c.task) {
    }
  }

  /** The parts of the check that are not about the batch. */
  predicate LabelsPass(l: Labels, a: System) {
    SetPasses(l.frozen) && IsName(l.name(a)) && (l.commit.Some? ==> IsName(l.commit.value)) && IsId(l.evaluator)
  }

  /** The batch records the system for every task, and the scorecard accepts the run it assembles. */
  ghost predicate Accepted(b: Batch, l: Labels, store: seq<Slice>, pools: seq<seq<Pooled>>, judged: seq<Judgement>,
                           a: System) {
    var end := Run(b, store, [], |store|).store;
    && |store| == |l.frozen.tasks| == |pools| == |judged|
    && RecordedAll(end, a)
    && RunPasses(l.frozen, Assemble(l, end, pools, judged, a))
  }

  /** No problem with task t of the run. */
  ghost predicate AssembledTaskPasses(l: Labels, a: System, r: Record, pools: seq<seq<Pooled>>,
                                      judged: seq<Judgement>, t: nat)
    requires t < |l.frozen.tasks| == |pools| == |judged|
  {
    TaskPasses(l.frozen, TaskOf(l, a, l.frozen.tasks[t].id, r, MapBack(pools[t], judged[t])))
  }

  lemma AssembledExactly(l: Labels, store: seq<Slice>, pools: seq<seq<Pooled>>, judged: seq<Judgement>,
                         a: System)
    requires |store| == |l.frozen.tasks| == |pools| == |judged| && RecordedAll(store, a)
    ensures RunPasses(l.frozen, Assemble(l, store, pools, judged, a))
       <==> LabelsPass(l, a) && forall t :: 0 <= t < |store| ==> AssembledTaskPasses(l, a, store[t][a], pools, judged, t)
  {
    var run := Assemble(l, store, pools, judged, a);
    forall t: nat | t < |store|
      ensures AssembledTaskPasses(l, a, store[t][a], pools, judged, t) <==> TaskPasses(l.frozen, run.tasks[t])
    {
      assert run.tasks[t] == TaskOf(l, a, l.frozen.tasks[t].id, store[t][a], MapBack(pools[t], judged[t]));
    }
  }

  /** Each of its tasks passes exactly if the record keeps no items on an unsupported stop. */
  lemma AssembledTasksPass(b: Batch, l: Labels, store: seq<Slice>, pools: seq<seq<Pooled>>, judged: seq<Judgement>,
                           a: System, t: nat)
    requires ValidBatch(b) && SensibleAdapters(b) && KeysAreWritten(l) && a in b.systems && SetPasses(l.frozen)
    requires |store| == |l.frozen.tasks| == |pools| == |judged| && t < |store|
    requires forall i :: 0 <= i < |store| ==> WrittenSlice(b, i, store[i])
    ensures
      var end := Run(b, store, [], |store|).store;
      && a in end[t]
      && (AssembledTaskPasses(l, a, end[t][a], pools, judged, t) <==> !ItemsOnUnsupported(end[t][a]))
  {
    var end := Run(b, store, [], |store|).store;
    RecordsKeepNothing(b, store, a, t);
    WrittenRecordPasses(b, l, t, a, end[t][a], pools[t], judged[t]);
    AssembledTask(l, a, t, end[t][a], MapBack(pools[t], judged[t]));
  }

  /**
    Every run a batch assembles passes the scorecard's whole check, if and only if its names and task set do, and no
    items were kept on a stop reported as unsupported.
  */
  lemma AssembledRunsPass(b: Batch, l: Labels, store: seq<Slice>, pools: seq<seq<Pooled>>, judged: seq<Judgement>, a: System)
    requires ValidBatch(b) && SensibleAdapters(b) && KeysAreWritten(l) && a in b.systems
    requires |store| == |l.frozen.tasks| == |pools| == |judged|
    requires forall i :: 0 <= i < |store| ==> WrittenSlice(b, i, store[i])
    ensures Accepted(b, l, store, pools, judged, a) <==> LabelsPass(l, a) && NothingKept(b, store, a)
  {
    var end := Run(b, store, [], |store|).store;
    NothingKeptExactly(b, store, a);
    AssembledExactly(l, end, pools, judged, a);
    if LabelsPass(l, a) {
      forall t: nat | t < |store|
        ensures AssembledTaskPasses(l, a, end[t][a], pools, judged, t) <==> !ItemsOnUnsupported(end[t][a])
      {
        AssembledTasksPass(b, l, store, pools, judged, a, t);
      }
    }
  }

  // ----- a run that does not -----

  lemma OneCallIsEnough(b: Batch, l: Labels, store: seq<Slice>, pools: seq<seq<Pooled>>, judged: seq<Judgement>,
                        c: AdapterCall)
    requires ValidBatch(b) && SensibleAdapters(b) && KeysAreWritten(l) && c.system in b.systems
    requires |store| == |l.frozen.tasks| == |pools| == |judged|
    requires forall i :: 0 <= i < |store| ==> WrittenSlice(b, i, store[i])
    requires c in Run(b, store, [], |store|).calls && KeepsItems(b.adapter(c.system, c.task))
    ensures !Accepted(b, l, store, pools, judged, c.system)
  {
    AssembledRunsPass(b, l, store, pools, judged, c.system);
  }

  lemma ItIsCalled(b: Batch)
    requires b.systems == [0] && b.available(0) && b.supports(0, 0) && b.perTask <= b.total
    ensures AdapterCall(0, 0, 0.0) in Run(b, [map[]], [], 1).calls
  {
    OneSystem(b, 0, State(map[], 0.0, []));
    assert Run(b, [map[]], [], 0) == BatchSpec.Result([], 0.0, []);
  }

  /** A batch of one system and one task, called and walled off with an item returned: the scorecard refuses its run. */
  lemma AWalledTaskFails(b: Batch, l: Labels, judged: Judgement)
    requires ValidBatch(b) && SensibleAdapters(b) && KeysAreWritten(l) && |l.frozen.tasks| == 1
    requires b.systems == [0] && b.available(0) && b.supports(0, 0) && b.perTask <= b.total && KeepsItems(b.adapter(0, 0))
    ensures !Accepted(b, l, [map[]], [[]], [judged], 0)
  {
    ItIsCalled(b);
    OneCallIsEnough(b, l, [map[]], [[]], [judged], AdapterCall(0, 0, 0.0));
  }

  const WALLED := Batch([0], (a: System) => true, 1, 1.0, 1.0, 1.0, 0, (a: System, t: nat) => true,
                        (a: System, t: nat) => Ran([RawItem(Some(0), 0)], Some(1.0), None, Some(LoginRequired)))

  const LABELS := Labels(TaskSet("1", [FrozenTask("t", Some(Standard))]), (a: System) => "s", (e: Entity) => "name:e", None, "e")

  lemma TheLabelsPass()
    ensures KeysAreWritten(LABELS) && LabelsPass(LABELS, 0)
  {
    assert !IsSpace("1"[0]) && !IsSpace("t"[0]) && !IsSpace("e"[0]);
  }

  lemma TheWallKeepsItems()
    ensures KeepsItems(WALLED.adapter(0, 0)) && ValidBatch(WALLED) && SensibleAdapters(WALLED)
  {
    var o := Ran([RawItem(Some(0), 0)], Some(1.0), None, Some(LoginRequired));
    assert o.items[0].key.Some?;
  }

  /** One whose labels, and all it was judged, are in order. */
  lemma AWalledRunFails(judged: Judgement)
    ensures LabelsPass(LABELS, 0) && !Accepted(WALLED, LABELS, [map[]], [[]], [judged], 0)
  {
    TheLabelsPass();
    TheWallKeepsItems();
    AWalledTaskFails(WALLED, LABELS, judged);
  }
}
