/**
  The staging restore as the script runs it (ops/staging/recovery_point.py, write_state, read_state and
  restore): one attempt, uninterrupted, on the disk of RecoverySpec. Every call it makes is a step of that
  machine, so what RecoverySpec proves of any prefix of an attempt holds of this code.
*/
module RecoveryStore {
  import opened Common
  import opened RecoverySpec
  import opened RecoveryLaws

  /** A sequence of states each reached from the one before by one call. */
  ghost predicate Linked(p: Point, tr: seq<State>) {
    && tr != []
    && (forall i :: 0 <= i < |tr| - 1 ==> Step(p, tr[i], tr[i + 1]))
  }

  /** What holds at the start of a linked sequence holds throughout. */
  lemma {:induction false} LinkedKeeps(p: Point, d0: Dir, tr: seq<State>, i: nat)
    requires Linked(p, tr) && Inv(p, d0, tr[0]) && i < |tr|
    ensures Inv(p, d0, tr[i])
    decreases i
  {
    if i != 0 {
      LinkedKeeps(p, d0, tr, i - 1);
      StepKeeps(p, d0, tr[i - 1], tr[i]);
    }
  }

  lemma SuffixLinked(p: Point, tr: seq<State>, i: nat)
    requires Linked(p, tr) && i < |tr|
    ensures Linked(p, tr[i..])
  {
  }

  /** An attempt that has made its last call has restored everything. */
  lemma AttemptDone(p: Point, d0: Dir, tr: seq<State>, start: nat)
    requires Linked(p, tr) && start + 2 <= |tr| && Inv(p, d0, tr[start]) && tr[|tr| - 2].pc == SyncDone
    ensures
      var s := Last(tr);
      && Inv(p, d0, s) && |s.db| == 1 && Complete(p, s.db[0]) && |s.rp| == 1 && StateFile !in s.rp[0]
      && SameForeign(p.base, d0, s.db[0])
  {
    SuffixLinked(p, tr, start);
    LinkedKeeps(p, d0, tr[start..], |tr| - 2 - start);
    LinkedKeeps(p, d0, tr[start..], |tr| - 1 - start);
    assert Step(p, tr[|tr| - 2], tr[|tr| - 1]);
  }

  class Disk {
    var db: seq<Dir>
    var rp: seq<RpDir>
    ghost var trace: seq<State>

    constructor (ghost p: Point, d0: Dir)
      requires Fresh(p, d0)
      ensures db == [d0] && rp == [map[]] && Attempt(p, Down, 0) && Inv(p, d0, Last(trace))
    {
      db, rp := [d0], [map[]];
      trace := [State([d0], [map[]], Down, 0, 0)];
      new;
      InitHolds(p, d0, Last(trace));
    }

    /** The attempt so far: linked calls, the last of them leaving this disk and about to make call `pc`. */
    ghost predicate Attempt(p: Point, pc: Pc, token: Token)
      reads this
    {
      && Linked(p, trace) && db != [] && rp != []
      && Last(trace) == State(db, rp, pc, token, Last(trace).tmp)
    }

    /** The disk after the call just made is the machine's next state. */
    ghost method Record(p: Point, pc: Pc, token: Token, tmp: Token)
      requires Linked(p, trace)
      requires Step(p, Last(trace), State(db, rp, pc, token, tmp))
      requires db != [] && rp != []
      modifies `trace
      ensures trace == old(trace) + [State(db, rp, pc, token, tmp)]
      ensures Attempt(p, pc, token)
    {
      trace := trace + [State(db, rp, pc, token, tmp)];
    }

    /** write_state: the state file appears whole, by rename, and durably. */
    method WriteState(p: Point, token: Token)
      requires Attempt(p, DropTmp, token)
      modifies `rp, `trace
      ensures Attempt(p, Aside(0), token) && old(trace) <= trace
      ensures StateFile in Last(rp)
    {
      ghost var tmp := Last(trace).tmp;
      if StateTmp in Last(rp) { rp := Changed(rp, Last(rp) - {StateTmp}); }
      Record(p, MakeTmp, token, tmp);
      rp := Changed(rp, Last(rp)[StateTmp := Note(None, false)]);
      Record(p, SyncTmp, token, tmp);
      rp := Changed(rp, Last(rp)[StateTmp := Note(Some(token), true)]);
      Record(p, RenameState, token, tmp);
      rp := Changed(rp, (Last(rp) - {StateTmp})[StateFile := Last(rp)[StateTmp]]);
      Record(p, SyncState, token, tmp);
      rp := Fsynced(rp);
      Record(p, Aside(0), token, tmp);
    }

    /** One sidecar, if it is there. */
    method MoveAside(p: Point, token: Token, k: nat)
      requires k < SIDECARS && Attempt(p, Aside(k), token)
      modifies `db, `trace
      ensures Attempt(p, if k + 1 < SIDECARS then Aside(k + 1) else SyncAside, token)
      ensures old(trace) <= trace && Last(trace).tmp == old(Last(trace).tmp)
      ensures Last(db) == Moved(old(Last(db)), token, k)
    {
      ghost var tmp := Last(trace).tmp;
      if Side(k) in Last(db) { db := Changed(db, Renamed(Last(db), Side(k), Quarantine(k, token))); }
      Record(p, if k + 1 < SIDECARS then Aside(k + 1) else SyncAside, token, tmp);
    }

    /** Phase 2: sidecars aside, not deleted: each under its quarantine name with its own file, durably, and nothing else touched. */
    method MoveSidecarsAside(p: Point, token: Token)
      requires Attempt(p, Aside(0), token)
      modifies `db, `trace
      ensures Attempt(p, if p.absent then DropBase else MakeCopy, token) && old(trace) <= trace
      ensures |db| == 1 && SetAside(old(Last(db)), db[0], token)
      ensures forall n: Name :: n.Temp? && n in Last(db) ==> n in old(Last(db))
    {
      ghost var tmp := Last(trace).tmp;
      var k := 0;
      while k < SIDECARS
        invariant 0 <= k <= SIDECARS
        invariant Attempt(p, if k < SIDECARS then Aside(k) else SyncAside, token)
        invariant Last(trace).tmp == tmp && old(trace) <= trace
        invariant SetAsideTo(old(Last(db)), Last(db), token, k)
      {
        MovedOne(old(Last(db)), Last(db), token, k);
        MoveAside(p, token, k);
        k := k + 1;
      }
      db := Fsynced(db);
      Record(p, if p.absent then DropBase else MakeCopy, token, tmp);
    }

    /** Phase 3: the recorded absence, or the verified copy under a random name and then over the database. */
    method Install(p: Point, token: Token, r: Token)
      requires Attempt(p, if p.absent then DropBase else MakeCopy, token)
      requires Temp(token, r) !in Last(db)
      modifies `db, `trace
      ensures Attempt(p, Clear(0), token) && old(trace) <= trace
    {
      ghost var tmp := Last(trace).tmp;
      if p.absent {
        if Base in Last(db) { db := Changed(db, Last(db) - {Base}); }
        Record(p, SyncInstall, token, tmp);
        db := Fsynced(db);
        Record(p, Clear(0), token, tmp);
      } else {
        db := Changed(db, Last(db)[Temp(token, r) := File(0, false, true)]);
        Record(p, SyncCopy, token, r);
        db := Changed(db, Last(db)[Temp(token, r) := File(p.copy, true, true)]);
        Record(p, RenameCopy, token, r);
        db := Changed(db, Renamed(Last(db), Temp(token, r), Base));
        Record(p, SyncInstall, token, r);
        db := Fsynced(db);
        Record(p, Clear(0), token, r);
      }
    }

    /** Phase 4: what was set aside, and every stale temporary of this or an earlier attempt, goes. */
    method ClearUp(p: Point, token: Token)
      requires Attempt(p, Clear(0), token)
      modifies `db, `trace
      ensures Attempt(p, DropState, token) && old(trace) <= trace
    {
      ghost var tmp := Last(trace).tmp;
      var k := 0;
      while k < SIDECARS
        invariant 0 <= k <= SIDECARS
        invariant Attempt(p, if k < SIDECARS then Clear(k) else Sweep, token)
        invariant Last(trace).tmp == tmp && old(trace) <= trace
      {
        if Side(k) in Last(db) { db := Changed(db, Last(db) - {Side(k)}); }
        k := k + 1;
        Record(p, if k < SIDECARS then Clear(k) else Sweep, token, tmp);
      }
      var stale := Leftovers(p.base, Last(db));
      while stale != {}
        invariant Attempt(p, Sweep, token) && stale == Leftovers(p.base, Last(db))
        invariant Last(trace).tmp == tmp && old(trace) <= trace
        decreases stale
      {
        var n :| n in stale;
        db := Changed(db, Last(db) - {n});
        Record(p, Sweep, token, tmp);
        stale := stale - {n};
      }
      Record(p, SyncClear, token, tmp);
      db := Fsynced(db);
      Record(p, DropState, token, tmp);
    }

    /** Only now the state file goes. */
    method DropStateFile(p: Point, token: Token)
      requires Attempt(p, DropState, token) && StateFile in Last(rp)
      modifies `rp, `trace
      ensures Attempt(p, Down, token) && old(trace) <= trace
      ensures |trace| == |old(trace)| + 2 && trace[|trace| - 2].pc == SyncDone
    {
      ghost var tmp := Last(trace).tmp;
      rp := Changed(rp, Last(rp) - {StateFile});
      Record(p, SyncDone, token, tmp);
      rp := Fsynced(rp);
      Record(p, Down, token, tmp);
    }

    /** The four phases in order, under the interrupted restore's token when there is one. */
    method RunPhases(p: Point, newToken: Token, r: Token)
      requires trace != [] && Attempt(p, Down, Last(trace).token)
      requires forall t :: Temp(t, r) !in Last(db)
      modifies this
      ensures trace != [] && Attempt(p, Down, Last(trace).token) && old(trace) <= trace
      ensures |trace| >= |old(trace)| + 2 && trace[|trace| - 2].pc == SyncDone
    {
      var prior := Prior(Last(rp));
      var token := if prior.Some? then prior.value else newToken;
      Record(p, DropTmp, token, Last(trace).tmp);
      WriteState(p, token);
      MoveSidecarsAside(p, token);
      Install(p, token, r);
      ClearUp(p, token);
      DropStateFile(p, token);
    }

    /**
      One attempt, from any disk that interrupted attempts may have left: it finishes the same restore and
      leaves it complete, durable and unclaimed, with every unrelated file as it was.
    */
    method Restore(p: Point, ghost d0: Dir, newToken: Token, r: Token)
      requires trace != [] && Attempt(p, Down, Last(trace).token) && Inv(p, d0, Last(trace))
      requires forall t :: Temp(t, r) !in Last(db)
      modifies this
      ensures |db| == 1 && Complete(p, db[0]) && |rp| == 1 && StateFile !in rp[0]
      ensures SameForeign(p.base, d0, db[0])
      ensures trace != [] && Attempt(p, Down, Last(trace).token) && Inv(p, d0, Last(trace)) && old(trace) <= trace
    {
      ghost var start := |trace| - 1;
      RunPhases(p, newToken, r);
      AttemptDone(p, d0, trace, start);
    }
  }
}
