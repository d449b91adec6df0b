/**
  What a rotation of the master key leaves in each row and what it counts (web/lib/secrets-rewrap.ts:37-118), said of
  the three columns it knows and of the key each row's wrap is sealed under.
*/
module RotationLaws {
  import opened Common
  import opened Envelope
  import opened KeyRotation
  import opened RotationStore

  /** A row of one of the three columns, in a table that exists. */
  predicate IsSecret(l: Loc, present: set<Column>) {
    l.column in present && (l.column == LlmKeys || l.column == Connectors || l.column == GmailAccounts)
  }

  /** The row's wrap is sealed under the key, for this row. */
  predicate Under(rows: Rows, l: Loc, key: Key) {
    l in rows && rows[l].Envelope? && rows[l].wrap.Sealed? && rows[l].wrap.key == key && rows[l].wrap.context == l
  }

  // ----- the rows -----

  /**
    Of a completed run: a row under the old key alone is sealed anew under the new key, with the same data key and the
    body as it was; a row under the new key, a row under neither, and every other row of the database are untouched.
  */
  lemma EachRowAfterARun(k: Rotation, rows: Rows, present: set<Column>, l: Loc)
    requires l in rows
    ensures
      Rotated(k, rows, present).Keys == rows.Keys
    ensures
      Rotated(k, rows, present)[l] ==
        if IsSecret(l, present) && Under(rows, l, k.fromKey) && !Under(rows, l, k.toKey)
        then Blob.Envelope(rows[l].body, Sealed(k.toKey, k.nonce(l), rows[l].wrap.plain, l), 0)
        else rows[l]
  {
  }

  /** The secret a row holds under a key: its wrap opens to a data key that opens its body, both for this row. */
  predicate Holds(rows: Rows, l: Loc, key: Key, secret: Secret) {
    && Under(rows, l, key)
    && rows[l].body.Sealed? && rows[l].body.key == rows[l].wrap.plain && rows[l].body.context == l && rows[l].body.plain == secret
  }

  lemma HoldsIsDecrypted(rows: Rows, l: Loc, key: Key, secret: Secret)
    requires l in rows
    ensures Holds(rows, l, key, secret) <==> DecryptSecret(rows[l], l, key) == Some(secret)
  {
  }

  /**
    From whatever state interrupted runs left, a completed run leaves every row of the three columns that either key
    opened under the new key, and every secret held under either key at the start is held there under the new one.
  */
  lemma ARunCompletesTheThreeColumns(start: Rows, now: Rows, k: Rotation, present: set<Column>, l: Loc, secret: Secret)
    requires SameSecrets(start, now, k) && l in start && IsSecret(l, present)
    ensures
      var after := Rotated(k, now, present);
      && (Under(after, l, k.toKey) <==> Under(start, l, k.fromKey) || Under(start, l, k.toKey))
      && (Holds(start, l, k.toKey, secret) ==> Holds(after, l, k.toKey, secret))
      && (Holds(start, l, k.fromKey, secret) && !Under(start, l, k.toKey) ==> Holds(after, l, k.toKey, secret))
  {
    AReRunFinishes(start, now, k, present);
    var after := Rotated(k, now, present);
    HoldsIsDecrypted(start, l, k.toKey, secret);
    HoldsIsDecrypted(start, l, k.fromKey, secret);
    HoldsIsDecrypted(after, l, k.toKey, secret);
    EachRowAfterARun(k, now, present, l);
    SameSecretReadsTheSame(start[l], now[l], l, k.fromKey, k.toKey);
    UnderIsVerified(start, l, k.fromKey);
    UnderIsVerified(start, l, k.toKey);
    UnderIsVerified(now, l, k.fromKey);
    UnderIsVerified(now, l, k.toKey);
  }

  lemma UnderIsVerified(rows: Rows, l: Loc, key: Key)
    requires l in rows
    ensures Under(rows, l, key) <==> VerifyWrap(rows[l], l, key)
  {
  }

  /** A run goes ahead by default exactly when one of the two keys opens every row of the three columns. */
  lemma PreflightExactly(k: Rotation, rows: Rows, present: set<Column>)
    ensures PreflightPasses(k, rows, present) <==>
      forall l :: l in rows && IsSecret(l, present) ==> Under(rows, l, k.fromKey) || Under(rows, l, k.toKey)
  {
    forall l | l in rows ensures Unreadable(k, rows, l) <==> !Under(rows, l, k.fromKey) && !Under(rows, l, k.toKey) {}
  }

  // ----- the counts -----

  function OldOnly(k: Rotation, rows: Rows, c: Column): set<Loc> {
    set l | l in rows && l.column == c && Under(rows, l, k.fromKey) && !Under(rows, l, k.toKey)
  }

  function OfKey(rows: Rows, c: Column, key: Key): set<Loc> {
    set l | l in rows && l.column == c && Under(rows, l, key)
  }

  function Neither(k: Rotation, rows: Rows, c: Column): set<Loc> {
    set l | l in rows && l.column == c && !Under(rows, l, k.fromKey) && !Under(rows, l, k.toKey)
  }

  /**
    A column's counts: rewrapped are the rows under the old key alone, skipped those under the new key already, and
    corrupt, which only recovery mode counts, those under neither; a missing table counts nothing.
  */
  lemma TheCountsExactly(k: Rotation, rows: Rows, present: set<Column>, quarantine: bool, c: Column)
    ensures ResultOf(k, rows, present, quarantine, c) ==
      if c in present
      then ColumnResult(c, false, |OldOnly(k, rows, c)|, |OfKey(rows, c, k.toKey)|, if quarantine then |Neither(k, rows, c)| else 0)
      else ColumnResult(c, true, 0, 0, 0)
  {
    var ls := Among(rows, c);
    assert ToWrite(k, rows, ls) == OldOnly(k, rows, c);
    assert AlreadyNew(k, rows, ls) == OfKey(rows, c, k.toKey);
    assert Corrupt(k, rows, ls) == Neither(k, rows, c);
  }

  /** The audit's: every row of the column, those under the key, and the rest. */
  lemma TheAuditExactly(rows: Rows, present: set<Column>, key: Key, c: Column)
    ensures VerifyOf(rows, present, key, c) ==
      if c in present
      then VerifyResult(c, false, |set l | l in rows && l.column == c|, |OfKey(rows, c, key)|,
                        |set l | l in rows && l.column == c && !Under(rows, l, key)|)
      else VerifyResult(c, true, 0, 0, 0)
  {
    var ls := Among(rows, c);
    assert ls == set l | l in rows && l.column == c;
    assert Passing(rows, ls, key) == OfKey(rows, c, key);
    assert ls - Passing(rows, ls, key) == set l | l in rows && l.column == c && !Under(rows, l, key);
  }

  /** After a completed run the audit under the new key counts as bad exactly the rows that neither key opened before it. */
  lemma TheAuditAfterARun(k: Rotation, rows: Rows, present: set<Column>, c: Column)
    requires c in {LlmKeys, Connectors, GmailAccounts} && c in present
    ensures VerifyOf(Rotated(k, rows, present), present, k.toKey, c).bad == |Neither(k, rows, c)|
  {
    BadRowsAreTheQuarantined(k, rows, present, c);
    TheCountsExactly(k, rows, present, true, c);
  }

  /** A run refused for rows it cannot rewrap says how many there are in the three columns. */
  lemma TheRefusalCounts(k: Rotation, rows: Rows, present: set<Column>)
    ensures Corrupt(k, rows, FirstColumns(rows, present, |COLUMNS|)) ==
      set l | l in rows && IsSecret(l, present) && !Under(rows, l, k.fromKey) && !Under(rows, l, k.toKey)
  {
    assert COLUMNS[..|COLUMNS|] == COLUMNS;
    assert forall l :: l in rows ==> (l in FirstColumns(rows, present, |COLUMNS|) <==> IsSecret(l, present));
  }

  // ----- the writes -----

  /** A plan whose rows are all as they were read is written, each row its own; else some are left, the changed ones among them. */
  lemma {:induction false} APlanWritesItsRows(rows: Rows, plan: seq<Planned>, i: nat)
    requires DistinctRows(plan) && i < |plan| && forall p :: p in plan ==> p.loc in rows && rows[p.loc] == p.original
    ensures plan[i].loc in WriteAll(rows, plan).0 && WriteAll(rows, plan).0[plan[i].loc] == plan[i].out
    decreases |plan|
  {
    var p, rest := plan[0], plan[1..];
    var next := rows[p.loc := p.out];
    assert forall q :: q in rest ==> q in plan;
    forall q | q in rest ensures q.loc in next && next[q.loc] == q.original {
      var j :| 0 <= j < |rest| && rest[j] == q;
      assert plan[0].loc != plan[j + 1].loc;
    }
    if i == 0 {
      ChangedRowsAreLeftAlone(next, rest);
      assert forall q :: q in rest ==> q.loc != p.loc;
    } else {
      APlanWritesItsRows(next, rest, i - 1);
    }
  }

  /** Of a history: a write takes effect exactly over the blob it read, sealing it anew under the key it goes to. */
  lemma AWriteExactly(rows: Rows, k: Rotation, l: Loc, original: Blob, backwards: bool, nonce: Nonce)
    ensures
      var from, onto := if backwards then k.toKey else k.fromKey, if backwards then k.fromKey else k.toKey;
      After(rows, k, Write(l, original, backwards, nonce)) ==
        if l in rows && rows[l] == original && Under(rows, l, from) && !Under(rows, l, onto)
        then rows[l := Blob.Envelope(original.body, Sealed(onto, nonce, original.wrap.plain, l), 0)] else rows
  {
  }

  /** The changes a run makes of its plan, up to the first row that has changed. */
  function Made(k: Rotation, rows: Rows, plan: seq<Planned>): seq<Change>
    decreases |plan|
  {
    if plan == [] || !(plan[0].loc in rows && rows[plan[0].loc] == plan[0].original) then []
    else [Write(plan[0].loc, plan[0].original, false, k.nonce(plan[0].loc))] + Made(k, rows[plan[0].loc := plan[0].out], plan[1..])
  }

  lemma {:induction false} FirstChange(rows: Rows, k: Rotation, c: Change, cs: seq<Change>)
    ensures AfterAll(rows, k, [c] + cs) == AfterAll(After(rows, k, c), k, cs)
    decreases |cs|
  {
    if cs == [] {
      assert ([c] + cs)[..0] == [];
    } else {
      var n := |cs| - 1;
      FirstChange(rows, k, c, cs[..n]);
      assert ([c] + cs)[..|cs|] == [c] + cs[..n];
    }
  }

  lemma {:induction false} WritesAreChanges(k: Rotation, rows: Rows, plan: seq<Planned>)
    requires forall p :: p in plan ==>
      RewrapSecret(p.original, p.loc, k.fromKey, k.toKey, k.nonce(p.loc)) == Some(Rewrapped(p.out, true))
    ensures WriteAll(rows, plan).0 == AfterAll(rows, k, Made(k, rows, plan))
    decreases |plan|
  {
    if plan != [] && plan[0].loc in rows && rows[plan[0].loc] == plan[0].original {
      var p := plan[0];
      var next := rows[p.loc := p.out];
      WritesAreChanges(k, next, plan[1..]);
      FirstChange(rows, k, Write(p.loc, p.original, false, k.nonce(p.loc)), Made(k, next, plan[1..]));
    }
  }

  /**
    What a run writes of the plan it made, on whatever table others have left by then, is part of a history: so all that
    holds at every moment of one holds of every run, cut off anywhere.
  */
  lemma ARunIsAHistory(k: Rotation, read: Rows, ls: set<Loc>, plan: seq<Planned>, rows: Rows)
    requires ls <= read.Keys && IsPlanOf(k, read, ls, plan)
    ensures WriteAll(rows, plan).0 == AfterAll(rows, k, Made(k, rows, plan))
  {
    WritesAreChanges(k, rows, plan);
  }
}
