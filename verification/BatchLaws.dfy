/**
  Whose turn it is, what each turn does and what it costs (web/lib/benchmark/runner.ts:162-217), said of the systems in
  name order and of what their adapters reported.
*/
module BatchLaws {
  import opened Common
  import opened Canonical
  import opened BatchSpec
  import opened BatchBudget
  import opened BatchResume
  import opened BatchStops

  // ----- whose turn -----

  /** The systems that can run, in name order. */
  function Able(b: Batch, systems: seq<System>): seq<System> {
    if systems == [] then []
    else (if b.available(systems[0]) then [systems[0]] else []) + Able(b, systems[1..])
  }

  lemma {:induction false} AbleAppend(b: Batch, systems: seq<System>, a: System)
    ensures Able(b, systems + [a]) == Able(b, systems) + (if b.available(a) then [a] else [])
    decreases |systems|
  {
    if systems == [] {
      assert ([] + [a])[1..] == [];
    } else {
      assert (systems + [a])[1..] == systems[1..] + [a];
      AbleAppend(b, systems[1..], a);
    }
  }

  lemma {:induction false} RunnableIsAble(b: Batch, systems: seq<System>)
    ensures Runnable(b, systems) == Able(b, systems)
  {
    if systems != [] {
      var n := |systems| - 1;
      RunnableIsAble(b, systems[..n]);
      AbleAppend(b, systems[..n], systems[n]);
      assert systems == systems[..n] + [systems[n]];
    }
  }

  lemma ModAdd(m: nat, k: nat, n: nat)
    requires k < n
    ensures (m + k) % n == if m % n + k < n then m % n + k else m % n + k - n
  {
    var q, c := m / n, m % n;
    assert m == n * q + c;
    if c + k < n {
      Remainder(m + k, q, c + k, n);
    } else {
      assert n * (q + 1) == n * q + n;
      Remainder(m + k, q + 1, c + k - n, n);
    }
  }

  lemma Remainder(x: nat, q: nat, r: nat, n: nat)
    requires r < n && x == n * q + r
    ensures x % n == r
  {
    var d := x / n - q;
    assert x == n * (x / n) + x % n;
    assert n * (x / n) == n * (q + d) == n * q + n * d;
    Bounded(n, d, r, x % n);
  }

  lemma Bounded(n: nat, d: int, r: nat, s: nat)
    requires r < n && s < n && n * d + s == r
    ensures d == 0
  {
  }

  /** A task's i-th turn is the able system at seed + task + i, counted round in name order. */
  lemma TurnsGoRound(b: Batch, t: nat, i: nat)
    requires i < |Able(b, b.systems)|
    ensures |Order(b, t)| == |Able(b, b.systems)|
    ensures Order(b, t)[i] == Able(b, b.systems)[(b.seed + t + i) % |Able(b, b.systems)|]
  {
    RunnableIsAble(b, b.systems);
    ModAdd(b.seed + t, i, |Able(b, b.systems)|);
  }

  lemma RotatesAt(b: Batch, t: nat, i: nat)
    requires i < |Able(b, b.systems)|
    ensures |Order(b, t)| == |Order(b, t + 1)| == |Able(b, b.systems)|
    ensures Order(b, t + 1)[i] == if i + 1 < |Able(b, b.systems)| then Order(b, t)[i + 1] else Order(b, t)[0]
  {
    var n := |Able(b, b.systems)|;
    TurnsGoRound(b, t + 1, i);
    if i + 1 < n {
      TurnsGoRound(b, t, i + 1);
    } else {
      TurnsGoRound(b, t, 0);
      AWholeRound(b.seed + t, n);
    }
  }

  /** The first task starts at the seed, and each task's order is the one before it with its first system last. */
  lemma EachTaskRotatesByOne(b: Batch, t: nat)
    requires Able(b, b.systems) != []
    ensures Order(b, 0) != [] && Order(b, 0)[0] == Able(b, b.systems)[b.seed % |Able(b, b.systems)|]
    ensures Order(b, t) != [] && Order(b, t + 1) == Order(b, t)[1..] + [Order(b, t)[0]]
  {
    TurnsGoRound(b, 0, 0);
    RotatesAt(b, t, 0);
    forall i | 0 <= i < |Order(b, t)| ensures Order(b, t + 1)[i] == (Order(b, t)[1..] + [Order(b, t)[0]])[i] {
      RotatesAt(b, t, i);
    }
  }

  lemma AWholeRound(m: nat, n: nat)
    requires 0 < n
    ensures (m + n) % n == m % n
  {
    var q := m / n;
    assert n * (q + 1) == n * q + n;
    Remainder(m + n, q + 1, m % n, n);
  }

  predicate GoesFirst(b: Batch, t: nat, a: System) {
    Order(b, t) != [] && Order(b, t)[0] == a
  }

  lemma FirstExactly(b: Batch, t: nat, x: nat)
    requires ValidBatch(b) && x < |Able(b, b.systems)|
    ensures GoesFirst(b, t, Able(b, b.systems)[x]) <==> (b.seed + t) % |Able(b, b.systems)| == x
  {
    RunnableIsAble(b, b.systems);
    RunnableIsPart(b, b.systems);
    TurnsGoRound(b, t, 0);
  }

  /** How long after m the place x of a round of n comes. */
  function Until(m: nat, x: nat, n: nat): nat
    requires x < n
  {
    if x >= m % n then x - m % n else x - m % n + n
  }

  lemma ItComes(m: nat, x: nat, n: nat)
    requires x < n
    ensures Until(m, x, n) < n && (m + Until(m, x, n)) % n == x
  {
    ModAdd(m, Until(m, x, n), n);
  }

  lemma ItComesOnce(m: nat, i: nat, j: nat, n: nat)
    requires i < j < n
    ensures (m + i) % n != (m + j) % n
  {
    ModAdd(m, i, n);
    ModAdd(m, j, n);
  }

  lemma GoesFirstSoon(b: Batch, t: nat, x: nat)
    requires ValidBatch(b) && x < |Able(b, b.systems)|
    ensures exists u :: t <= u < t + |Able(b, b.systems)| && GoesFirst(b, u, Able(b, b.systems)[x])
  {
    var n := |Able(b, b.systems)|;
    var k := Until(b.seed + t, x, n);
    ItComes(b.seed + t, x, n);
    assert b.seed + (t + k) == b.seed + t + k;
    FirstExactly(b, t + k, x);
  }

  lemma NotFirstTwice(b: Batch, t: nat, x: nat, u: nat, v: nat)
    requires ValidBatch(b) && x < |Able(b, b.systems)| && t <= u < v < t + |Able(b, b.systems)|
    ensures !(GoesFirst(b, u, Able(b, b.systems)[x]) && GoesFirst(b, v, Able(b, b.systems)[x]))
  {
    FirstExactly(b, u, x);
    FirstExactly(b, v, x);
    ItComesOnce(b.seed + t, u - t, v - t, |Able(b, b.systems)|);
    assert b.seed + t + (u - t) == b.seed + u && b.seed + t + (v - t) == b.seed + v;
  }

  lemma AbleAt(b: Batch, a: System) returns (x: nat)
    requires ValidBatch(b) && a in b.systems && b.available(a)
    ensures x < |Able(b, b.systems)| && Able(b, b.systems)[x] == a
  {
    RunnableIsAble(b, b.systems);
    RunnableIsPart(b, b.systems);
    x :| 0 <= x < |Able(b, b.systems)| && Able(b, b.systems)[x] == a;
  }

  /** Over any n consecutive tasks, n the number of able systems, each of them goes first exactly once. */
  lemma EachGoesFirstOnce(b: Batch, t: nat, a: System)
    requires ValidBatch(b) && a in b.systems && b.available(a)
    ensures exists u :: t <= u < t + |Able(b, b.systems)| && GoesFirst(b, u, a)
    ensures forall u, v :: t <= u < v < t + |Able(b, b.systems)| ==> !(GoesFirst(b, u, a) && GoesFirst(b, v, a))
  {
    var x := AbleAt(b, a);
    GoesFirstSoon(b, t, x);
    forall u, v | t <= u < v < t + |Able(b, b.systems)| ensures !(GoesFirst(b, u, a) && GoesFirst(b, v, a)) {
      NotFirstTwice(b, t, x, u, v);
    }
  }

  // ----- what a record says -----

  /**
    A call that threw has failed, and one that timed out is incomplete after the task's whole time. One that ran is
    unsupported if it stopped at a login wall, a paywall or a missing feature; complete if it did not stop and kept the
    task's time and cost, as far as it reported them; else incomplete. It keeps its cost, its time and its rows.
  */
  lemma WhatARecordSays(b: Batch, o: Outcome)
    ensures
      var r := RecordOf(b, o);
      match o
      case Threw => r == Record(Failed, None, None, [])
      case TimedOut => r == Record(Incomplete, None, Some(b.secondsPerTask), [])
      case Ran(items, cost, seconds, stopped) =>
        && (r.status == Complete <==>
              && stopped == None
              && (seconds == None || seconds.value <= b.secondsPerTask) && (cost == None || cost.value <= b.perTask))
        && (r.status == Unsupported <==> stopped in {Some(LoginRequired), Some(Paywall), Some(FeatureUnavailable)})
        && r.status in {Complete, Unsupported, Incomplete}
        && r.cost == cost && r.seconds == seconds && r.items == Canonicalize(items)
  {
  }

  /** What a call costs: what it reported, or the task's whole limit. */
  function Price(b: Batch, o: Outcome): real {
    match o
    case Ran(_, Some(cost), _, _) => cost
    case _ => b.perTask
  }

  /** What a found record reserves again: its cost; the limit for a call that reported none; nothing if there was no call. */
  function Reserved(b: Batch, r: Record): real {
    match r
    case Record(_, Some(cost), _, _) => cost
    case Record(Complete, None, _, _) => b.perTask
    case Record(Incomplete, None, _, _) => b.perTask
    case Record(Failed, None, _, _) => b.perTask
    case _ => 0.0
  }

  function ReservedOf(b: Batch, systems: seq<System>, found: Slice): real {
    if systems == [] then 0.0
    else var n := |systems| - 1;
         ReservedOf(b, systems[..n], found) + (if systems[n] in found then Reserved(b, found[systems[n]]) else 0.0)
  }

  lemma {:induction false} RecordedIsReserved(b: Batch, systems: seq<System>, found: Slice)
    ensures Recorded(b, systems, found) == ReservedOf(b, systems, found)
  {
    if systems != [] { RecordedIsReserved(b, systems[..|systems| - 1], found); }
  }

  // ----- what a task does, turn by turn -----

  /** Before a task's first turn: what it found, reserved again, and every system that cannot run, written off. */
  lemma ATaskBegins(b: Batch, store: seq<Slice>, log: seq<AdapterCall>, t: nat)
    requires ValidBatch(b) && t < |store|
    ensures
      var r, st := Run(b, store, log, t), AfterTurns(b, store, log, t, 0);
      && st.spent == r.spent + ReservedOf(b, b.systems, store[t]) && st.calls == r.calls
      && (forall a :: a in st.slice <==> a in store[t] || (a in b.systems && !b.available(a)))
      && forall a :: a in st.slice ==> st.slice[a] == if a in store[t] then store[t][a] else Record(Unsupported, None, None, [])
  {
    var r := Run(b, store, log, t);
    Collected(b, b.systems, State(store[t], r.spent, r.calls));
    RecordedIsReserved(b, b.systems, store[t]);
    NoTurnYet(b, t, State(store[t], r.spent, r.calls));
  }

  lemma NoTurnYet(b: Batch, t: nat, st: State)
    ensures PartOfTask(b, t, st, 0) == Collect(b, b.systems, st)
  {
    assert Order(b, t)[..0] == [];
  }

  /**
    The k-th turn: nothing for a system with a record; unsupported for one that cannot express the task; not run, exactly
    when the spend so far and the task's limit pass the total; else one call, its record, and its price.
  */
  lemma ATurn(b: Batch, store: seq<Slice>, log: seq<AdapterCall>, t: nat, k: nat)
    requires t < |store| && k < |Able(b, b.systems)|
    ensures
      var a := Able(b, b.systems)[(b.seed + t + k) % |Able(b, b.systems)|];
      var st, st' := AfterTurns(b, store, log, t, k), AfterTurns(b, store, log, t, k + 1);
      st' ==
        if a in st.slice then st
        else if !b.supports(a, t) then State(st.slice[a := Record(Unsupported, None, None, [])], st.spent, st.calls)
        else if st.spent + b.perTask > b.total then State(st.slice[a := Record(NotRun, None, None, [])], st.spent, st.calls)
        else State(st.slice[a := RecordOf(b, b.adapter(a, t))], st.spent + Price(b, b.adapter(a, t)),
                   st.calls + [AdapterCall(a, t, st.spent)])
  {
    var r := Run(b, store, log, t);
    TurnsGoRound(b, t, k);
    OneMoreTurn(b, t, State(store[t], r.spent, r.calls), k);
  }

  lemma OneMoreTurn(b: Batch, t: nat, st: State, k: nat)
    requires k < |Order(b, t)|
    ensures PartOfTask(b, t, st, k + 1) == Turn(b, t, Order(b, t)[k], PartOfTask(b, t, st, k))
  {
    var order := Order(b, t);
    assert order[..k + 1] == order[..k] + [order[k]];
    TurnsLast(b, t, order[..k], order[k], Collect(b, b.systems, st));
  }

  /** And the next task goes on from where the last turn left it. */
  lemma ATaskEnds(b: Batch, store: seq<Slice>, log: seq<AdapterCall>, t: nat)
    requires t < |store|
    ensures
      var r, end := Run(b, store, log, t), AfterTurns(b, store, log, t, |Able(b, b.systems)|);
      Run(b, store, log, t + 1) == Result(r.store + [end.slice], end.spent, end.calls)
  {
    RunnableIsAble(b, b.systems);
    var order := Order(b, t);
    assert |order| == |Able(b, b.systems)| && order[..|order|] == order;
  }

  // ----- what a batch spends -----

  /** The prices of the calls in a log. */
  function PriceOf(b: Batch, log: seq<AdapterCall>): real {
    if log == [] then 0.0
    else var n := |log| - 1; PriceOf(b, log[..n]) + Price(b, b.adapter(log[n].system, log[n].task))
  }

  lemma {:induction false} TurnsPay(b: Batch, t: nat, order: seq<System>, st: State)
    ensures Turns(b, t, order, st).spent - st.spent == PriceOf(b, Turns(b, t, order, st).calls) - PriceOf(b, st.calls)
  {
    if order != [] {
      var before, a := Turns(b, t, order[..|order| - 1], st), order[|order| - 1];
      TurnsPay(b, t, order[..|order| - 1], st);
      assert (before.calls + [AdapterCall(a, t, before.spent)])[..|before.calls|] == before.calls;
    }
  }

  /** A batch with nothing recorded spends exactly what the calls it makes cost. */
  lemma {:induction false} ABatchSpendsWhatItCalls(b: Batch, empty: seq<Slice>, n: nat)
    requires ValidBatch(b) && n <= |empty| && forall i :: 0 <= i < |empty| ==> empty[i] == map[]
    ensures Run(b, empty, [], n).spent == PriceOf(b, Run(b, empty, [], n).calls)
  {
    if n > 0 {
      ABatchSpendsWhatItCalls(b, empty, n - 1);
      var r := Run(b, empty, [], n - 1);
      var st := State(map[], r.spent, r.calls);
      Collected(b, b.systems, st);
      NothingRecorded(b, b.systems);
      TurnsPay(b, n - 1, Order(b, n - 1), Collect(b, b.systems, st));
    }
  }

  /** So if no adapter reports more than the task's limit, the calls of a batch cost no more than its total. */
  lemma TheCallsStayWithinTheTotal(b: Batch, empty: seq<Slice>, n: nat)
    requires ValidBatch(b) && n <= |empty| && forall i :: 0 <= i < |empty| ==> empty[i] == map[]
    requires forall a, t :: Price(b, b.adapter(a, t)) <= b.perTask
    ensures PriceOf(b, Run(b, empty, [], n).calls) <= b.total
  {
    assert forall a, t :: Charge(b, b.adapter(a, t)) == Price(b, b.adapter(a, t));
    TheTotalHolds(b, n, empty);
    ABatchSpendsWhatItCalls(b, empty, n);
  }

  /** What is paid for a log is the price of its calls. */
  lemma {:induction false} PaidIsThePrice(b: Batch, log: seq<AdapterCall>)
    ensures Paid(b, log) == PriceOf(b, log)
  {
    if log != [] { PaidIsThePrice(b, log[..|log| - 1]); }
  }

  /** A stop inside a call that a turn makes cuts that one call off; any other stop cuts nothing off. */
  lemma WhatAStopCutsOff(b: Batch, p: Progress, t: nat, k: nat)
    requires t < |p.store| && k < |Able(b, b.systems)|
    ensures
      var a := Able(b, b.systems)[(b.seed + t + k) % |Able(b, b.systems)|];
      var st := AfterTurns(b, p.store, p.log, t, k);
      && Cut(b, p, t, InFirst(k)) == [] && Cut(b, p, t, InSecond(k)) == []
      && Cut(b, p, t, InCall(k)) ==
           if a !in st.slice && b.supports(a, t) && st.spent + b.perTask <= b.total then [AdapterCall(a, t, st.spent)] else []
  {
    TurnsGoRound(b, t, k);
  }
}
