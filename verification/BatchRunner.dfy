/** The batch's loops over the run store (web/lib/benchmark/runner.ts:182-217), proved to be BatchSpec.Run. */
module BatchRunner {
  import opened Common
  import opened Canonical
  import opened BatchSpec

  function WithRecord(slice: Slice, a: System, r: Record): Slice {
    slice[a := r]
  }

  class Runner {
    var store: seq<Slice>
    var spent: real
    var calls: seq<AdapterCall>

    constructor (store: seq<Slice>, log: seq<AdapterCall>)
      ensures this.store == store && calls == log && spent == 0.0
    {
      this.store, spent, calls := store, 0.0, log;
    }

    function At(t: nat): State
      requires t < |store|
      reads this
    {
      State(store[t], spent, calls)
    }

    method Put(t: nat, a: System, r: Record)
      requires t < |store|
      modifies `store
      ensures store == old(store)[t := WithRecord(old(store)[t], a, r)]
    {
      store := store[t := WithRecord(store[t], a, r)];
    }

    /** The first loop of a task: what is recorded is charged, what is unavailable is recorded. */
    method CollectTask(b: Batch, t: nat)
      requires t < |store|
      modifies this
      ensures |store| == old(|store|) && At(t) == Collect(b, b.systems, old(At(t)))
      ensures forall i :: 0 <= i < |store| && i != t ==> store[i] == old(store[i])
    {
      for i := 0 to |b.systems|
        invariant |store| == old(|store|) && At(t) == Collect(b, b.systems[..i], old(At(t)))
        invariant forall k :: 0 <= k < |store| && k != t ==> store[k] == old(store[k])
      {
        var a := b.systems[i];
        assert b.systems[..i + 1][..i] == b.systems[..i];
        if a in store[t] {
          spent := spent + ChargeAgain(b, store[t][a]);
        } else if !b.available(a) {
          Put(t, a, UNAVAILABLE);
        }
      }
      assert b.systems[..|b.systems|] == b.systems;
    }

    /** One adapter's turn. */
    method TakeTurn(b: Batch, t: nat, a: System)
      requires t < |store|
      modifies this
      ensures |store| == old(|store|) && At(t) == Turn(b, t, a, old(At(t)))
      ensures forall i :: 0 <= i < |store| && i != t ==> store[i] == old(store[i])
    {
      if a in store[t] { return; }
      if !b.supports(a, t) {
        Put(t, a, CANNOT_EXPRESS);
        return;
      }
      if spent + b.perTask > b.total {
        Put(t, a, REFUSED);
        return;
      }
      calls := calls + [AdapterCall(a, t, spent)];
      match b.adapter(a, t) {
        case Threw =>
          spent := spent + b.perTask;
          Put(t, a, Record(Failed, None, None, []));
        case TimedOut =>
          spent := spent + b.perTask;
          Put(t, a, Record(Incomplete, None, Some(b.secondsPerTask), []));
        case Ran(raw, cost, seconds, stopped) =>
          spent := spent + (if cost.Some? then cost.value else b.perTask);
          var items := CanonicalizeItems(raw);
          var status := Complete;
          if stopped.Some? { status := StopStatus(stopped.value); }
          else if seconds.Some? && seconds.value > b.secondsPerTask { status := Incomplete; }
          else if cost.Some? && cost.value > b.perTask { status := Incomplete; }
          Put(t, a, Record(status, cost, seconds, items));
      }
    }

    method RunTask(b: Batch, t: nat)
      requires t < |store|
      modifies this
      ensures |store| == old(|store|) && At(t) == Task(b, t, old(At(t)))
      ensures forall i :: 0 <= i < |store| && i != t ==> store[i] == old(store[i])
    {
      CollectTask(b, t);
      ghost var start := At(t);
      var order := Order(b, t);
      for i := 0 to |order|
        invariant |store| == old(|store|) && At(t) == Turns(b, t, order[..i], start)
        invariant forall k :: 0 <= k < |store| && k != t ==> store[k] == old(store[k])
      {
        assert order[..i + 1][..i] == order[..i];
        TakeTurn(b, t, order[i]);
      }
      assert order[..|order|] == order;
    }

    /** A run of the batch over what the store holds. */
    method RunBatch(b: Batch)
      requires |store| == b.tasks && spent == 0.0
      modifies this
      ensures Result(store, spent, calls) == Run(b, old(store), old(calls), b.tasks)
    {
      for t := 0 to b.tasks
        invariant |store| == b.tasks
        invariant Result(store[..t], spent, calls) == Run(b, old(store), old(calls), t)
        invariant forall i :: t <= i < b.tasks ==> store[i] == old(store[i])
      {
        ghost var before := store;
        ghost var st := At(t);
        RunTask(b, t);
        assert store[..t + 1] == before[..t] + [store[t]];
        RunNext(b, old(store), old(calls), t, st);
      }
      assert store[..b.tasks] == store;
    }
  }

  lemma RunNext(b: Batch, store: seq<Slice>, log: seq<AdapterCall>, t: nat, st: State)
    requires t < |store|
    requires var r := Run(b, store, log, t); st == State(store[t], r.spent, r.calls)
    ensures
      var end := Task(b, t, st);
      Run(b, store, log, t + 1) == Result(Run(b, store, log, t).store + [end.slice], end.spent, end.calls)
  {
  }
}
