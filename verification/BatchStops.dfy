/** A batch that is stopped any number of times before it is let finish (web/lib/benchmark/runner.ts:180-217). */
module BatchStops {
  import opened Common
  import opened BatchSpec
  import opened BatchBudget
  import opened BatchResume

  // ----- any number of stops -----

  datatype Interruption = Interruption(task: nat, at: Point)

  function StopAll(b: Batch, p: Progress, stops: seq<Interruption>): (q: Progress)
    requires forall s :: s in stops ==> s.task < |p.store|
    ensures |q.store| == |p.store|
  {
    if stops == [] then p
    else Interrupted(b, StopAll(b, p, stops[..|stops| - 1]), stops[|stops| - 1].task, stops[|stops| - 1].at)
  }

  /** The calls that the stops cut off. */
  function CutCalls(b: Batch, p: Progress, stops: seq<Interruption>): seq<AdapterCall>
    requires forall s :: s in stops ==> s.task < |p.store|
  {
    if stops == [] then []
    else
      var n := |stops| - 1;
      CutCalls(b, p, stops[..n]) + Cut(b, StopAll(b, p, stops[..n]), stops[n].task, stops[n].at)
  }

  /** A stop leaves the finishing run nothing to forget that was not there to forget. */
  lemma NothingMoreToForget(b: Batch, p: Progress, t: nat, at: Point)
    requires ValidBatch(b) && t < |p.store| && NoneForgotten(b, New(b, p.store))
    ensures Resumes(b, p, t, at) && NoneForgotten(b, New(b, Interrupted(b, p, t, at).store))
  {
    EveryStopResumesExactly(b, p);
    var q := Interrupted(b, p, t, at);
    assert Resumes(b, p, t, at);
    RunSpends(b, p.store, |p.store|);
    RunSpends(b, q.store, |p.store|);
    NothingLost(b, New(b, p.store));
    NothingLost(b, New(b, q.store));
  }

  /**
    However often it stops, wherever: the same store and counted spend, one extra call for each call cut off, and
    nothing more to pay than what those cost.
  */
  lemma {:induction false} HoweverOftenItStops(b: Batch, p: Progress, stops: seq<Interruption>)
    requires ValidBatch(b) && NoneForgotten(b, New(b, p.store)) && forall s :: s in stops ==> s.task < |p.store|
    ensures
      var q, n := StopAll(b, p, stops), |p.store|;
      && Run(b, q.store, [], n).store == Run(b, p.store, [], n).store
      && Run(b, q.store, [], n).spent == Run(b, p.store, [], n).spent
      && |Total(b, q)| == |Total(b, p)| + |CutCalls(b, p, stops)|
      && Paid(b, Total(b, q)) == Paid(b, Total(b, p)) + Paid(b, CutCalls(b, p, stops))
      && NoneForgotten(b, New(b, q.store))
  {
    if stops != [] {
      var n := |stops| - 1;
      HoweverOftenItStops(b, p, stops[..n]);
      var before, t, at := StopAll(b, p, stops[..n]), stops[n].task, stops[n].at;
      NothingMoreToForget(b, before, t, at);
      PaidTogether(b, CutCalls(b, p, stops[..n]), Cut(b, before, t, at));
    }
  }

  // ----- how often a system is called -----

  /** A stop that cuts nothing off leaves every call with its record. */
  lemma UncutKeepsRecords(b: Batch, p: Progress, t: nat, at: Point)
    requires ValidBatch(b) && t < |p.store| && OneEach(p.store, p.log) && Cut(b, p, t, at) == []
    ensures OneEach(Interrupted(b, p, t, at).store, Interrupted(b, p, t, at).log)
  {
    var r, st, q := Run(b, p.store, p.log, t), Arriving(b, p, t), Interrupted(b, p, t, at);
    var now := r.store + p.store[t..];
    RunKeepsOneEach(b, p.store, p.log, t);
    assert now == now[t := st.slice];
    if at.InFirst? {
      CollectKeepsOneEach(b, if at.k <= |b.systems| then b.systems[..at.k] else b.systems, now, t, st);
    } else {
      CollectKeepsOneEach(b, b.systems, now, t, st);
      TurnsKeepOneEach(b, if at.k <= |Order(b, t)| then Order(b, t)[..at.k] else Order(b, t), now, t, Collect(b, b.systems, st));
    }
    assert q.store == now[t := StoppedAt(b, t, st, at).slice];
  }

  lemma OneEachInAll(b: Batch, p: Progress)
    requires ValidBatch(b) && OneEach(p.store, p.log)
    ensures CalledOnce(Total(b, p))
  {
    RunKeepsOneEach(b, p.store, p.log, |p.store|);
    RunAfter(b, p.store, p.log, |p.store|);
  }

  predicate SameCall(c: AdapterCall, d: AdapterCall) {
    c.system == d.system && c.task == d.task
  }

  /** A call is made twice, or the next one made will be one made before. */
  ghost predicate Doubled(b: Batch, p: Progress) {
    || !CalledOnce(p.log)
    || (New(b, p.store) != [] && exists c :: c in p.log && SameCall(c, New(b, p.store)[0]))
  }

  lemma DoubledInAll(b: Batch, p: Progress)
    requires Doubled(b, p)
    ensures !CalledOnce(Total(b, p))
  {
    var total := Total(b, p);
    if !CalledOnce(p.log) {
      StillTwice(p.log, total);
    } else {
      var i :| 0 <= i < |p.log| && SameCall(p.log[i], New(b, p.store)[0]);
      assert total[i] == p.log[i] && total[|p.log|] == New(b, p.store)[0];
    }
  }

  lemma StillTwice(x: seq<AdapterCall>, y: seq<AdapterCall>)
    requires !CalledOnce(x) && x <= y
    ensures !CalledOnce(y)
  {
    var i, j :| 0 <= i < j < |x| && (x[i].system, x[i].task) == (x[j].system, x[j].task);
    assert y[i] == x[i] && y[j] == x[j];
  }

  lemma ACutDoubles(b: Batch, p: Progress, t: nat, at: Point)
    requires ValidBatch(b) && t < |p.store| && Cut(b, p, t, at) != []
    ensures Doubled(b, Interrupted(b, p, t, at))
  {
    TheCutCallIsNext(b, p, t, at);
    var q, c := Interrupted(b, p, t, at), Cut(b, p, t, at)[0];
    assert c == q.log[|q.log| - 1] && SameCall(c, New(b, q.store)[0]);
  }

  /** If nothing was recorded, what is still to come is the same. */
  lemma SameToCome(b: Batch, p: Progress, t: nat, at: Point)
    requires ValidBatch(b) && t < |p.store| && Recording(b, p, t, at).log == p.log
    ensures New(b, Interrupted(b, p, t, at).store) == New(b, p.store)
  {
    var store := Recording(b, p, t, at).store;
    WhatIsRecordedResumes(b, p, t, at);
    RunAfter(b, p.store, p.log, |p.store|);
    RunAfter(b, store, p.log, |p.store|);
    assert New(b, store) == (p.log + New(b, store))[|p.log|..] == (p.log + New(b, p.store))[|p.log|..] == New(b, p.store);
  }

  /** A later stop leaves it so. */
  lemma StaysDoubled(b: Batch, p: Progress, t: nat, at: Point)
    requires ValidBatch(b) && t < |p.store| && Doubled(b, p)
    ensures Doubled(b, Interrupted(b, p, t, at))
  {
    var made := Made(b, p, t, at);
    MadeAfter(b, p, t, at);
    if !CalledOnce(p.log) {
      StillTwice(p.log, Interrupted(b, p, t, at).log);
    } else if made == [] {
      assert p.log + made == p.log;
      SameToCome(b, p, t, at);
    } else {
      MadeIsPart(b, p, t, at);
      TwiceNow(p.log, made, Cut(b, p, t, at), New(b, p.store)[0]);
    }
  }

  lemma TwiceNow(log: seq<AdapterCall>, made: seq<AdapterCall>, cut: seq<AdapterCall>, c: AdapterCall)
    requires made != [] && made[0] == c && exists d :: d in log && SameCall(d, c)
    ensures !CalledOnce(log + made + cut)
  {
    var i :| 0 <= i < |log| && SameCall(log[i], c);
    var all := log + made + cut;
    assert all[i] == log[i] && all[|log|] == c;
  }

  /** Over all its runs a batch calls each system at most once for each task if and only if no stop cut a call off. */
  lemma CalledOnceExactly(b: Batch, store: seq<Slice>, stops: seq<Interruption>)
    requires ValidBatch(b) && forall s :: s in stops ==> s.task < |store|
    ensures CalledOnce(Total(b, StopAll(b, Progress(store, []), stops))) <==> CutCalls(b, Progress(store, []), stops) == []
  {
    var p := Progress(store, []);
    StopsDouble(b, p, stops);
    if CutCalls(b, p, stops) == [] {
      OneEachInAll(b, StopAll(b, p, stops));
    } else {
      DoubledInAll(b, StopAll(b, p, stops));
    }
  }

  lemma {:induction false} StopsDouble(b: Batch, p: Progress, stops: seq<Interruption>)
    requires ValidBatch(b) && OneEach(p.store, p.log) && forall s :: s in stops ==> s.task < |p.store|
    ensures
      var q := StopAll(b, p, stops);
      if CutCalls(b, p, stops) == [] then OneEach(q.store, q.log) else Doubled(b, q)
  {
    if stops != [] {
      var n := |stops| - 1;
      StopsDouble(b, p, stops[..n]);
      var before, t, at := StopAll(b, p, stops[..n]), stops[n].task, stops[n].at;
      if Cut(b, before, t, at) != [] {
        ACutDoubles(b, before, t, at);
      } else if CutCalls(b, p, stops[..n]) == [] {
        UncutKeepsRecords(b, before, t, at);
      } else {
        StaysDoubled(b, before, t, at);
      }
    }
  }

  /** From an empty store a run pays what it counts. */
  lemma {:induction false} RunPays(b: Batch, empty: seq<Slice>, n: nat)
    requires ValidBatch(b) && n <= |empty| && forall i :: 0 <= i < |empty| ==> empty[i] == map[]
    ensures Run(b, empty, [], n).spent == Paid(b, Run(b, empty, [], n).calls)
  {
    if n > 0 {
      RunPays(b, empty, n - 1);
      var r := Run(b, empty, [], n - 1);
      var st := State(map[], r.spent, r.calls);
      Collected(b, b.systems, st);
      NothingRecorded(b, b.systems);
      TurnsPay(b, n - 1, Order(b, n - 1), Collect(b, b.systems, st));
    }
  }

  lemma {:induction false} TurnsPay(b: Batch, t: nat, order: seq<System>, st: State)
    requires st.spent == Paid(b, st.calls)
    ensures Turns(b, t, order, st).spent == Paid(b, Turns(b, t, order, st).calls)
  {
    if order != [] {
      TurnsPay(b, t, order[..|order| - 1], st);
      TurnPays(b, t, order[|order| - 1], Turns(b, t, order[..|order| - 1], st));
    }
  }

  lemma TurnPays(b: Batch, t: nat, a: System, st: State)
    requires st.spent == Paid(b, st.calls)
    ensures Turn(b, t, a, st).spent == Paid(b, Turn(b, t, a, st).calls)
  {
    var end := Turn(b, t, a, st);
    if end.calls != st.calls { assert end.calls[..|st.calls|] == st.calls; }
  }

  /** If no call costs more than its task's limit, all it pays beyond its total is for the calls cut off. */
  lemma TheTotalHoldsHoweverItStops(b: Batch, empty: seq<Slice>, stops: seq<Interruption>)
    requires ValidBatch(b) && NoneForgotten(b, New(b, empty)) && CostsFit(b)
    requires (forall s :: s in stops ==> s.task < |empty|) && forall i :: 0 <= i < |empty| ==> empty[i] == map[]
    ensures
      var p := Progress(empty, []);
      && Run(b, StopAll(b, p, stops).store, [], |empty|).spent <= b.total
      && Paid(b, Total(b, StopAll(b, p, stops))) <= b.total + Paid(b, CutCalls(b, p, stops))
  {
    HoweverOftenItStops(b, Progress(empty, []), stops);
    RunPays(b, empty, |empty|);
    TheTotalHolds(b, |empty|, empty);
    assert [] + New(b, empty) == New(b, empty);
  }

  // ----- a call that is cut off -----

  /** One system and one task, which costs the whole total. */
  const ONE := Batch([0], (a: System) => true, 1, 1.0, 1.0, 1.0, 0, (a: System, t: nat) => true,
                     (a: System, t: nat) => Ran([], Some(1.0), None, None))

  lemma OneTask(st: State)
    requires st.slice == map[]
    ensures Order(ONE, 0) == [0] && PartOfTask(ONE, 0, st, 0) == st && Task(ONE, 0, st) == Turn(ONE, 0, 0, st)
  {
    OneSystem(ONE, 0, st);
    assert Collect(ONE, [], st) == st && [0][..0] == [];
  }

  const NOTHING := Progress([map[]], [])
  const ONE_CALL := AdapterCall(0, 0, 0.0)

  lemma OneRun()
    ensures New(ONE, [map[]]) == [ONE_CALL] && Run(ONE, [map[]], [], 1).spent == 1.0
  {
    OneTask(State(map[], 0.0, []));
    assert Run(ONE, [map[]], [], 0) == BatchSpec.Result([], 0.0, []);
  }

  lemma StoppedInTheCall()
    ensures Interrupted(ONE, NOTHING, 0, InCall(0)) == Progress([map[]], [ONE_CALL])
  {
    var st := State(map[], 0.0, []);
    OneTask(st);
    assert Arriving(ONE, NOTHING, 0) == st;
    assert CutOff(ONE, 0, st, InCall(0)) == [ONE_CALL];
    assert Recording(ONE, NOTHING, 0, InCall(0)).store == [map[]];
  }

  /** Stopped inside its one call, it makes the call again: it counts its total and pays twice that. */
  lemma ACutCallIsMadeAgain()
    ensures ValidBatch(ONE)
    ensures
      var q := Interrupted(ONE, NOTHING, 0, InCall(0));
      && Total(ONE, q) == [ONE_CALL, ONE_CALL]
      && Run(ONE, q.store, [], 1).spent == ONE.total && Paid(ONE, Total(ONE, q)) == 2.0 * ONE.total
  {
    StoppedInTheCall();
    OneRun();
    PaidTogether(ONE, [ONE_CALL], [ONE_CALL]);
    assert [ONE_CALL][..0] == [];
    assert Paid(ONE, [ONE_CALL]) == 1.0;
  }

  // ----- a stop that is forgotten -----

  /** One system, two tasks of the whole budget each; the first stops at a login with no cost reported. */
  const LOGIN := Batch([0], (a: System) => true, 2, 1.0, 1.0, 1.0, 0, (a: System, t: nat) => true,
                       (a: System, t: nat) =>
                         if t == 0 then Ran([], None, None, Some(LoginRequired)) else Ran([], Some(1.0), None, None))

  const LOGIN_STOPPED := Record(Unsupported, None, None, [])

  /** Uninterrupted, the second task is refused. */
  lemma UninterruptedItIsRefused()
    ensures Run(LOGIN, [map[], map[]], [], 1) == BatchSpec.Result([map[0 := LOGIN_STOPPED]], 1.0, [AdapterCall(0, 0, 0.0)])
    ensures Run(LOGIN, [map[], map[]], [], 2).calls == [AdapterCall(0, 0, 0.0)]
  {
    OneSystem(LOGIN, 0, State(map[], 0.0, []));
    assert Run(LOGIN, [map[], map[]], [], 0) == BatchSpec.Result([], 0.0, []);
    OneSystem(LOGIN, 1, State(map[], 1.0, [AdapterCall(0, 0, 0.0)]));
  }

  /** Found recorded, the first task is charged nothing, and the second is called. */
  lemma ResumedItIsCalled(log: seq<AdapterCall>)
    ensures |Run(LOGIN, [map[0 := LOGIN_STOPPED], map[]], log, 2).calls| == |log| + 1
  {
    OneSystem(LOGIN, 0, State(map[0 := LOGIN_STOPPED], 0.0, log));
    assert Run(LOGIN, [map[0 := LOGIN_STOPPED], map[]], log, 1) == BatchSpec.Result([map[0 := LOGIN_STOPPED]], 0.0, log);
    OneSystem(LOGIN, 1, State(map[], 0.0, log));
  }

  const UNTOUCHED := Progress([map[], map[]], [])
  const STOPPED := Progress([map[0 := LOGIN_STOPPED], map[]], [AdapterCall(0, 0, 0.0)])

  lemma FirstTaskOfLogin(st: State)
    requires st == State(map[], 0.0, [])
    ensures PartOfTask(LOGIN, 0, st, 1) == State(map[0 := LOGIN_STOPPED], 1.0, [AdapterCall(0, 0, 0.0)])
  {
    OneSystem(LOGIN, 0, st);
    assert [0][..1] == [0];
    assert PartOfTask(LOGIN, 0, st, 1) == Task(LOGIN, 0, st);
  }

  lemma BetweenTurnsNothingIsCut(b: Batch, p: Progress, t: nat, k: nat)
    requires t < |p.store|
    ensures Interrupted(b, p, t, InSecond(k)) == Recording(b, p, t, InSecond(k))
  {
    assert Cut(b, p, t, InSecond(k)) == [];
  }

  lemma RecordingTheFirst(b: Batch, x: Slice, y: Slice, st: State, k: nat)
    requires PartOfTask(b, 0, State(x, 0.0, []), k) == st
    ensures Recording(b, Progress([x, y], []), 0, InSecond(k)) == Progress([st.slice, y], st.calls)
  {
    assert Arriving(b, Progress([x, y], []), 0) == State(x, 0.0, []);
    assert Splice([], st.slice, [x, y]) == [st.slice, y];
  }

  lemma StoppedAfterLogin()
    ensures Interrupted(LOGIN, UNTOUCHED, 0, InSecond(1)) == STOPPED
  {
    BetweenTurnsNothingIsCut(LOGIN, UNTOUCHED, 0, 1);
    FirstTaskOfLogin(State(map[], 0.0, []));
    RecordingTheFirst(LOGIN, map[], map[], State(map[0 := LOGIN_STOPPED], 1.0, [AdapterCall(0, 0, 0.0)]), 1);
  }

  lemma OneForgotten(b: Batch, c: AdapterCall, o: Outcome)
    requires o == b.adapter(c.system, c.task) && Forgotten(o)
    ensures !NoneForgotten(b, [c])
  {
    assert c in [c];
  }

  lemma TheLoginIsForgotten()
    ensures !NoneForgotten(LOGIN, New(LOGIN, UNTOUCHED.store))
  {
    UninterruptedItIsRefused();
    OneForgotten(LOGIN, AdapterCall(0, 0, 0.0), Ran([], None, None, Some(LoginRequired)));
  }

  /** So a batch stopped after that task and run again calls more than one that never stopped. */
  lemma AForgottenStopCallsMore()
    ensures ValidBatch(LOGIN) && !NoneForgotten(LOGIN, New(LOGIN, UNTOUCHED.store))
    ensures Interrupted(LOGIN, UNTOUCHED, 0, InSecond(1)) == STOPPED
    ensures |Run(LOGIN, UNTOUCHED.store, UNTOUCHED.log, 2).calls| < |Run(LOGIN, STOPPED.store, STOPPED.log, 2).calls|
  {
    TheLoginIsForgotten();
    StoppedAfterLogin();
    UninterruptedItIsRefused();
    ResumedItIsCalled(STOPPED.log);
  }
}
