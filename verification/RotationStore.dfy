/** The rotation tool's loops (web/lib/secrets-rewrap.ts:52-118), proved to leave KeyRotation.Rotated or nothing. */
module RotationStore {
  import opened Common
  import opened Envelope
  import opened KeyRotation

  datatype Counts = Counts(rewrapped: nat, skipped: nat, unreadable: nat)

  /** A plan holds each row of `ls` that needs a write, once, with the blob read and its rewrapped form. */
  ghost predicate IsPlanOf(k: Rotation, rows: Rows, ls: set<Loc>, plan: seq<Planned>)
    requires ls <= rows.Keys
  {
    && DistinctRows(plan)
    && (forall p :: p in plan ==> p.loc in ls && NeedsWrite(k, rows, p.loc)
                                  && p.original == rows[p.loc] && p.out == Rewrap(k, rows, p.loc).value.out)
    && (forall l :: l in ls && NeedsWrite(k, rows, l) ==> exists p :: p in plan && p.loc == l)
  }

  /** The registered rows of the first n columns. */
  function FirstColumns(rows: Rows, present: set<Column>, n: nat): set<Loc>
    requires n <= |COLUMNS|
  {
    set l | l in rows && l.column in present && l.column in COLUMNS[..n]
  }

  lemma NextColumn(rows: Rows, present: set<Column>, i: nat)
    requires i < |COLUMNS|
    ensures
      var before, c := FirstColumns(rows, present, i), COLUMNS[i];
      && FirstColumns(rows, present, i + 1) == (if c in present then before + Among(rows, c) else before)
      && before !! Among(rows, c)
  {
  }

  ghost predicate AllReadable(k: Rotation, rows: Rows, ls: set<Loc>)
    requires ls <= rows.Keys
  {
    forall l :: l in ls ==> !Unreadable(k, rows, l)
  }

  lemma NoneCorrupt(k: Rotation, rows: Rows, ls: set<Loc>)
    requires ls <= rows.Keys
    ensures |Corrupt(k, rows, ls)| == 0 <==> AllReadable(k, rows, ls)
  {
    assert |Corrupt(k, rows, ls)| == 0 <==> Corrupt(k, rows, ls) == {};
    if Corrupt(k, rows, ls) == {} {
      forall l | l in ls ensures !Unreadable(k, rows, l) { assert l !in Corrupt(k, rows, ls); }
    }
  }

  lemma CorruptAdds(k: Rotation, rows: Rows, a: set<Loc>, b: set<Loc>)
    requires a <= rows.Keys && b <= rows.Keys && a !! b
    ensures |Corrupt(k, rows, a + b)| == |Corrupt(k, rows, a)| + |Corrupt(k, rows, b)|
  {
    assert Corrupt(k, rows, a + b) == Corrupt(k, rows, a) + Corrupt(k, rows, b);
  }

  /** Writing a whole plan over the table it was made from leaves the rotated table. */
  lemma {:induction false} PlanRotates(k: Rotation, rows: Rows, present: set<Column>, plan: seq<Planned>)
    requires IsPlanOf(k, rows, FirstColumns(rows, present, |COLUMNS|), plan)
    ensures WriteAll(rows, plan) == (Rotated(k, rows, present), true)
  {
    ChangedRowsAreLeftAlone(rows, plan);
    var (after, done) := WriteAll(rows, plan);
    forall l | l in rows ensures after[l] == RotatedBlob(k, rows, present, l) {
      if exists p :: p in plan && p.loc == l {
        var i :| 0 <= i < |plan| && plan[i].loc == l;
        WrittenRow(rows, plan, i);
      }
    }
    assert after == Rotated(k, rows, present);
  }

  /** A row of a plan that is written ends on its planned blob. */
  lemma {:induction false} WrittenRow(rows: Rows, plan: seq<Planned>, i: nat)
    requires DistinctRows(plan) && i < |plan| && WriteAll(rows, plan).1
    ensures plan[i].loc in WriteAll(rows, plan).0 && WriteAll(rows, plan).0[plan[i].loc] == plan[i].out
    decreases |plan|
  {
    var p, rest := plan[0], plan[1..];
    var next := rows[p.loc := p.out];
    if i == 0 {
      ChangedRowsAreLeftAlone(next, rest);
      assert forall q :: q in rest ==> q.loc != p.loc;
    } else {
      WrittenRow(next, rest, i - 1);
    }
  }

  class Vault {
    const present: set<Column>
    var rows: Rows

    constructor (present: set<Column>, rows: Rows)
      ensures this.present == present && this.rows == rows
    {
      this.present, this.rows := present, rows;
    }

    /** One row's preflight: planned, skipped, or counted as unreadable. */
    method CheckRow(k: Rotation, l: Loc, ghost before: set<Loc>, ghost seen: set<Loc>, plan0: seq<Planned>, counts0: Counts)
      returns (plan: seq<Planned>, counts: Counts)
      requires l in rows && l !in seen && l !in before && Checked(k, rows, before, seen, plan0, counts0)
      ensures Checked(k, rows, before, seen + {l}, plan, counts)
    {
      CheckedNext(k, rows, before, seen, plan0, counts0, l);
      var r := RewrapSecret(rows[l], l, k.fromKey, k.toKey, k.nonce(l));
      plan, counts := plan0, counts0;
      if r.None? {
        counts := counts.(unreadable := counts.unreadable + 1);
      } else if !r.value.changed {
        counts := counts.(skipped := counts.skipped + 1);
      } else {
        plan := plan + [Planned(l, rows[l], r.value.out)];
        counts := counts.(rewrapped := counts.rewrapped + 1);
      }
    }

    /** One column's preflight, its rows in whatever order the table gives them. */
    method CheckColumn(k: Rotation, c: Column, quarantine: bool, plan0: seq<Planned>, ghost before: set<Loc>)
      returns (result: ColumnResult, plan: seq<Planned>, failed: nat)
      requires c in present && before <= rows.Keys && before !! Among(rows, c) && IsPlanOf(k, rows, before, plan0)
      ensures result == ResultOf(k, rows, present, quarantine, c)
      ensures IsPlanOf(k, rows, before + Among(rows, c), plan)
      ensures failed == if quarantine then 0 else |Corrupt(k, rows, Among(rows, c))|
    {
      var all := Among(rows, c);
      var counts := Counts(0, 0, 0);
      var todo := all;
      plan := plan0;
      CheckedNone(k, rows, before, all, plan);
      while todo != {}
        invariant todo <= all && Checked(k, rows, before, all - todo, plan, counts)
        decreases |todo|
      {
        var l :| l in todo;
        ghost var seen := all - todo;
        plan, counts := CheckRow(k, l, before, seen, plan, counts);
        TakeOne(all, todo, l);
        todo := todo - {l};
      }
      TakenAll(all);
      result := ColumnResult(c, false, counts.rewrapped, counts.skipped, if quarantine then counts.unreadable else 0);
      failed := if quarantine then 0 else counts.unreadable;
    }

    /** Every column's preflight; `failed` counts the rows that cannot be rewrapped, unless they are quarantined. */
    method Preflight(k: Rotation, quarantine: bool) returns (results: seq<ColumnResult>, plan: seq<Planned>, failed: nat)
      ensures |results| == |COLUMNS|
      ensures forall i :: 0 <= i < |COLUMNS| ==> results[i] == ResultOf(k, rows, present, quarantine, COLUMNS[i])
      ensures IsPlanOf(k, rows, FirstColumns(rows, present, |COLUMNS|), plan)
      ensures failed == if quarantine then 0 else |Corrupt(k, rows, FirstColumns(rows, present, |COLUMNS|))|
      ensures !quarantine ==> (failed == 0 <==> PreflightPasses(k, rows, present))
    {
      results, plan, failed := [], [], 0;
      for i := 0 to |COLUMNS|
        invariant |results| == i
        invariant forall j :: 0 <= j < i ==> results[j] == ResultOf(k, rows, present, quarantine, COLUMNS[j])
        invariant IsPlanOf(k, rows, FirstColumns(rows, present, i), plan)
        invariant failed == if quarantine then 0 else |Corrupt(k, rows, FirstColumns(rows, present, i))|
      {
        var c := COLUMNS[i];
        ghost var before := FirstColumns(rows, present, i);
        NextColumn(rows, present, i);
        if c !in present {
          results := results + [ColumnResult(c, true, 0, 0, 0)];
        } else {
          var result, more := ColumnResult(c, true, 0, 0, 0), 0;
          result, plan, more := CheckColumn(k, c, quarantine, plan, before);
          results := results + [result];
          failed := failed + more;
          CorruptAdds(k, rows, before, Among(rows, c));
        }
      }
      NoneCorrupt(k, rows, FirstColumns(rows, present, |COLUMNS|));
    }

    /** The writes, each only over the blob its preflight read. */
    method WritePlan(plan: seq<Planned>) returns (done: bool)
      modifies `rows
      ensures (rows, done) == WriteAll(old(rows), plan)
    {
      for i := 0 to |plan|
        invariant WriteAll(rows, plan[i..]) == WriteAll(old(rows), plan)
      {
        var p := plan[i];
        if p.loc !in rows || rows[p.loc] != p.original { return false; }
        rows := rows[p.loc := p.out];
      }
      return true;
    }

    /**
      One run. Nothing is written for identical keys, in a dry run, or in the default mode when any row cannot be
      rewrapped; otherwise, with no other writer, every row that can be is left under the new key.
    */
    method RewrapMasterKey(k: Rotation, dryRun: bool, quarantine: bool) returns (r: Result<seq<ColumnResult>, Error>)
      modifies `rows
      ensures k.fromKey == k.toKey ==> r == Err(IdenticalKeys) && rows == old(rows)
      ensures k.fromKey != k.toKey && !quarantine && !PreflightPasses(k, old(rows), present) ==>
        r == Err(PreflightFailed(|Corrupt(k, old(rows), FirstColumns(old(rows), present, |COLUMNS|))|)) && rows == old(rows)
      ensures k.fromKey != k.toKey && (quarantine || PreflightPasses(k, old(rows), present)) ==>
        && r.Ok? && |r.value| == |COLUMNS|
        && (forall i :: 0 <= i < |COLUMNS| ==> r.value[i] == ResultOf(k, old(rows), present, quarantine, COLUMNS[i]))
        && rows == if dryRun then old(rows) else Rotated(k, old(rows), present)
    {
      if k.fromKey == k.toKey { return Err(IdenticalKeys); }
      var results, plan, failed := Preflight(k, quarantine);
      if failed != 0 { return Err(PreflightFailed(failed)); }
      if dryRun { return Ok(results); }
      PlanRotates(k, rows, present, plan);
      var done := WritePlan(plan);
      return if done then Ok(results) else Err(RowChanged);
    }

    method VerifyColumn(key: Key, c: Column) returns (result: VerifyResult)
      requires c in present
      ensures result == VerifyOf(rows, present, key, c)
    {
      var all := Among(rows, c);
      var ok, bad := 0, 0;
      ghost var seen: set<Loc> := {};
      var todo := all;
      while todo != {}
        invariant todo !! seen && todo + seen == all
        invariant ok == |Passing(rows, seen, key)| && bad == |seen - Passing(rows, seen, key)|
        decreases |todo|
      {
        var l :| l in todo;
        todo := todo - {l};
        CountPassing(rows, seen, l, key);
        if VerifyWrap(rows[l], l, key) { ok := ok + 1; } else { bad := bad + 1; }
        seen := seen + {l};
      }
      assert seen == all;
      result := VerifyResult(c, false, |all|, ok, bad);
    }

    /** The audit: it reads every registered column and changes nothing. */
    method VerifyMasterKey(key: Key) returns (results: seq<VerifyResult>)
      ensures |results| == |COLUMNS|
      ensures forall i :: 0 <= i < |COLUMNS| ==> results[i] == VerifyOf(rows, present, key, COLUMNS[i])
    {
      results := [];
      for i := 0 to |COLUMNS|
        invariant |results| == i
        invariant forall j :: 0 <= j < i ==> results[j] == VerifyOf(rows, present, key, COLUMNS[j])
      {
        var result := VerifyResult(COLUMNS[i], true, 0, 0, 0);
        if COLUMNS[i] in present { result := VerifyColumn(key, COLUMNS[i]); }
        results := results + [result];
      }
    }
  }

  /** Each row is counted once. */
  ghost predicate Counted(k: Rotation, rows: Rows, seen: set<Loc>, rewrapped: nat, skipped: nat, unreadable: nat) {
    && seen <= rows.Keys
    && rewrapped == |ToWrite(k, rows, seen)| && skipped == |AlreadyNew(k, rows, seen)|
    && unreadable == |Corrupt(k, rows, seen)|
  }

  lemma CountUnreadable(k: Rotation, rows: Rows, seen: set<Loc>, l: Loc, rewrapped: nat, skipped: nat, unreadable: nat)
    requires Counted(k, rows, seen, rewrapped, skipped, unreadable) && l in rows && l !in seen && Unreadable(k, rows, l)
    ensures Counted(k, rows, seen + {l}, rewrapped, skipped, unreadable + 1)
  {
    assert ToWrite(k, rows, seen + {l}) == ToWrite(k, rows, seen);
    assert AlreadyNew(k, rows, seen + {l}) == AlreadyNew(k, rows, seen);
    assert Corrupt(k, rows, seen + {l}) == Corrupt(k, rows, seen) + {l};
  }

  lemma CountWrite(k: Rotation, rows: Rows, seen: set<Loc>, l: Loc, rewrapped: nat, skipped: nat, unreadable: nat)
    requires Counted(k, rows, seen, rewrapped, skipped, unreadable) && l in rows && l !in seen && NeedsWrite(k, rows, l)
    ensures Counted(k, rows, seen + {l}, rewrapped + 1, skipped, unreadable)
  {
    assert ToWrite(k, rows, seen + {l}) == ToWrite(k, rows, seen) + {l};
    assert AlreadyNew(k, rows, seen + {l}) == AlreadyNew(k, rows, seen);
    assert Corrupt(k, rows, seen + {l}) == Corrupt(k, rows, seen);
  }

  lemma CountSkipped(k: Rotation, rows: Rows, seen: set<Loc>, l: Loc, rewrapped: nat, skipped: nat, unreadable: nat)
    requires Counted(k, rows, seen, rewrapped, skipped, unreadable) && l in rows && l !in seen
    requires !Unreadable(k, rows, l) && !NeedsWrite(k, rows, l)
    ensures Counted(k, rows, seen + {l}, rewrapped, skipped + 1, unreadable)
  {
    assert ToWrite(k, rows, seen + {l}) == ToWrite(k, rows, seen);
    assert AlreadyNew(k, rows, seen + {l}) == AlreadyNew(k, rows, seen) + {l};
    assert Corrupt(k, rows, seen + {l}) == Corrupt(k, rows, seen);
  }

  /** A row that needs no write leaves the plan as it is. */
  lemma PlanWithout(k: Rotation, rows: Rows, ls: set<Loc>, plan: seq<Planned>, l: Loc)
    requires ls <= rows.Keys && l in rows && !NeedsWrite(k, rows, l) && IsPlanOf(k, rows, ls, plan)
    ensures IsPlanOf(k, rows, ls + {l}, plan)
  {
  }

  lemma CountPassing(rows: Rows, seen: set<Loc>, l: Loc, key: Key)
    requires seen <= rows.Keys && l in rows && l !in seen
    ensures
      var passes := VerifyWrap(rows[l], l, key);
      && |Passing(rows, seen + {l}, key)| == |Passing(rows, seen, key)| + (if passes then 1 else 0)
      && |seen + {l} - Passing(rows, seen + {l}, key)| == |seen - Passing(rows, seen, key)| + (if passes then 0 else 1)
  {
    var passing := Passing(rows, seen, key);
    if VerifyWrap(rows[l], l, key) {
      assert Passing(rows, seen + {l}, key) == passing + {l};
      assert seen + {l} - (passing + {l}) == seen - passing;
    } else {
      assert Passing(rows, seen + {l}, key) == passing;
      assert seen + {l} - passing == seen - passing + {l};
    }
  }

  /** What the loop over a column's rows knows. */
  ghost predicate Checked(k: Rotation, rows: Rows, before: set<Loc>, seen: set<Loc>, plan: seq<Planned>, counts: Counts) {
    && before <= rows.Keys && before !! seen
    && Counted(k, rows, seen, counts.rewrapped, counts.skipped, counts.unreadable)
    && IsPlanOf(k, rows, before + seen, plan)
  }

  lemma CheckedNone(k: Rotation, rows: Rows, before: set<Loc>, all: set<Loc>, plan: seq<Planned>)
    requires before <= rows.Keys && all <= rows.Keys && IsPlanOf(k, rows, before, plan)
    ensures Checked(k, rows, before, all - all, plan, Counts(0, 0, 0))
  {
  }

  lemma TakeOne<T>(all: set<T>, todo: set<T>, x: T)
    requires todo <= all && x in todo
    ensures all - (todo - {x}) == all - todo + {x}
  {
  }

  lemma TakenAll<T>(all: set<T>)
    ensures all - {} == all
  {
  }

  lemma CheckedNext(k: Rotation, rows: Rows, before: set<Loc>, seen: set<Loc>, plan: seq<Planned>, n: Counts, l: Loc)
    requires Checked(k, rows, before, seen, plan, n) && l in rows && l !in seen && l !in before
    ensures
      if Unreadable(k, rows, l) then Checked(k, rows, before, seen + {l}, plan, n.(unreadable := n.unreadable + 1))
      else if NeedsWrite(k, rows, l) then
        Checked(k, rows, before, seen + {l}, plan + [Planned(l, rows[l], Rewrap(k, rows, l).value.out)], n.(rewrapped := n.rewrapped + 1))
      else Checked(k, rows, before, seen + {l}, plan, n.(skipped := n.skipped + 1))
  {
    assert before + (seen + {l}) == before + seen + {l};
    if Unreadable(k, rows, l) {
      CountUnreadable(k, rows, seen, l, n.rewrapped, n.skipped, n.unreadable);
      PlanWithout(k, rows, before + seen, plan, l);
    } else if NeedsWrite(k, rows, l) {
      CountWrite(k, rows, seen, l, n.rewrapped, n.skipped, n.unreadable);
      PlanWith(k, rows, before + seen, plan, l);
    } else {
      CountSkipped(k, rows, seen, l, n.rewrapped, n.skipped, n.unreadable);
      PlanWithout(k, rows, before + seen, plan, l);
    }
  }

  lemma PlanWith(k: Rotation, rows: Rows, ls: set<Loc>, plan: seq<Planned>, l: Loc)
    requires ls <= rows.Keys && l in rows && l !in ls && NeedsWrite(k, rows, l) && IsPlanOf(k, rows, ls, plan)
    ensures IsPlanOf(k, rows, ls + {l}, plan + [Planned(l, rows[l], Rewrap(k, rows, l).value.out)])
  {
  }
}
