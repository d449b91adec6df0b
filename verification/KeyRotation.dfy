/**
  Rotating the master key (web/lib/secrets-rewrap.ts:37-118): every row is checked and rewrapped in memory
  first, then written row by row, each write only over the blob that was read.
*/
module KeyRotation {
  import opened Common
  import opened Envelope

  /** The registered columns; a row of any other column is never touched. */
  const COLUMNS := [LlmKeys, Connectors, GmailAccounts]

  type Rows = map<Loc, Blob>

  datatype Planned = Planned(loc: Loc, original: Blob, out: Blob)
  datatype ColumnResult = ColumnResult(column: Column, missing: bool, rewrapped: nat, skipped: nat, corrupt: nat)
  datatype VerifyResult = VerifyResult(column: Column, missing: bool, total: nat, ok: nat, bad: nat)
  datatype Error = IdenticalKeys | PreflightFailed(rows: nat) | RowChanged

  /** The two master keys, from the one to the other, and the random nonce for each row. */
  datatype Rotation = Rotation(fromKey: Key, toKey: Key, nonce: Loc -> Nonce)

  predicate Registered(l: Loc, present: set<Column>) {
    l.column in COLUMNS && l.column in present
  }

  function Rewrap(k: Rotation, rows: Rows, l: Loc): Option<Rewrapped>
    requires l in rows
  {
    RewrapSecret(rows[l], l, k.fromKey, k.toKey, k.nonce(l))
  }

  predicate Unreadable(k: Rotation, rows: Rows, l: Loc)
    requires l in rows
  {
    Rewrap(k, rows, l).None?
  }

  predicate NeedsWrite(k: Rotation, rows: Rows, l: Loc)
    requires l in rows
  {
    Rewrap(k, rows, l).Some? && Rewrap(k, rows, l).value.changed
  }

  function Among(rows: Rows, c: Column): set<Loc> {
    set l | l in rows && l.column == c
  }

  function Corrupt(k: Rotation, rows: Rows, ls: set<Loc>): set<Loc>
    requires ls <= rows.Keys
  {
    set l | l in ls && Unreadable(k, rows, l)
  }

  function ToWrite(k: Rotation, rows: Rows, ls: set<Loc>): set<Loc>
    requires ls <= rows.Keys
  {
    set l | l in ls && NeedsWrite(k, rows, l)
  }

  /** The rows that are under the new key already. */
  function AlreadyNew(k: Rotation, rows: Rows, ls: set<Loc>): set<Loc>
    requires ls <= rows.Keys
  {
    set l | l in ls && !Unreadable(k, rows, l) && !NeedsWrite(k, rows, l)
  }

  /** The blob a completed run leaves in a row. */
  function RotatedBlob(k: Rotation, rows: Rows, present: set<Column>, l: Loc): Blob
    requires l in rows
  {
    if Registered(l, present) && NeedsWrite(k, rows, l) then Rewrap(k, rows, l).value.out else rows[l]
  }

  /** The table a completed run leaves. */
  function Rotated(k: Rotation, rows: Rows, present: set<Column>): Rows {
    map l | l in rows :: RotatedBlob(k, rows, present, l)
  }

  /** A column's counts; `quarantined` rows are counted only in recovery mode. */
  function ResultOf(k: Rotation, rows: Rows, present: set<Column>, quarantine: bool, c: Column): ColumnResult {
    if c !in present then ColumnResult(c, true, 0, 0, 0)
    else
      var ls := Among(rows, c);
      ColumnResult(c, false, |ToWrite(k, rows, ls)|, |AlreadyNew(k, rows, ls)|, if quarantine then |Corrupt(k, rows, ls)| else 0)
  }

  /** The rows whose wrap opens. */
  function Passing(rows: Rows, ls: set<Loc>, key: Key): set<Loc>
    requires ls <= rows.Keys
  {
    set l | l in ls && VerifyWrap(rows[l], l, key)
  }

  function VerifyOf(rows: Rows, present: set<Column>, key: Key, c: Column): VerifyResult {
    if c !in present then VerifyResult(c, true, 0, 0, 0)
    else
      var ls := Among(rows, c);
      var ok := Passing(rows, ls, key);
      VerifyResult(c, false, |ls|, |ok|, |ls - ok|)
  }

  // ----- the writes -----

  /** Writes a plan in order, each row only over its preflight blob, and stops at the first that has changed. */
  function WriteAll(rows: Rows, plan: seq<Planned>): (Rows, bool)
    decreases |plan|
  {
    if plan == [] then (rows, true)
    else
      var p := plan[0];
      if p.loc in rows && rows[p.loc] == p.original then WriteAll(rows[p.loc := p.out], plan[1..]) else (rows, false)
  }

  ghost predicate DistinctRows(plan: seq<Planned>) {
    forall i, j :: 0 <= i < j < |plan| ==> plan[i].loc != plan[j].loc
  }

  ghost predicate Unchanged(rows: Rows, p: Planned) {
    p.loc in rows && rows[p.loc] == p.original
  }

  /** All of a plan is written exactly when no row of it has changed; and a row that has changed is left alone. */
  lemma {:induction false} ChangedRowsAreLeftAlone(rows: Rows, plan: seq<Planned>)
    requires DistinctRows(plan)
    ensures WriteAll(rows, plan).1 <==> forall p :: p in plan ==> Unchanged(rows, p)
    ensures WriteAll(rows, plan).0.Keys == rows.Keys
    ensures forall l :: l in rows && (forall p :: p in plan && p.loc == l ==> !Unchanged(rows, p))
              ==> WriteAll(rows, plan).0[l] == rows[l]
    decreases |plan|
  {
    if plan != [] {
      var p, rest := plan[0], plan[1..];
      if Unchanged(rows, p) {
        var next := rows[p.loc := p.out];
        ChangedRowsAreLeftAlone(next, rest);
        assert forall q :: q in rest ==> q.loc != p.loc && (Unchanged(next, q) <==> Unchanged(rows, q));
        assert forall q :: q in plan <==> q == p || q in rest;
      } else {
        assert p in plan;
      }
    }
  }

  // ----- every moment of every run -----

  /** A write by a run in either direction over the blob it read, or a change by anyone else. */
  datatype Change =
    | Write(loc: Loc, original: Blob, backwards: bool, nonce: Nonce)
    | Outside(loc: Loc, blob: Option<Blob>)

  function Put(rows: Rows, l: Loc, blob: Option<Blob>): Rows {
    if blob.Some? then rows[l := blob.value] else rows - {l}
  }

  /** The table, as it changes under runs that stop anywhere and are started again in either direction. */
  function After(rows: Rows, k: Rotation, c: Change): Rows {
    match c
    case Outside(l, blob) => Put(rows, l, blob)
    case Write(l, original, backwards, nonce) =>
      var r := if backwards then RewrapSecret(original, l, k.toKey, k.fromKey, nonce) else RewrapSecret(original, l, k.fromKey, k.toKey, nonce);
      if r.Some? && r.value.changed && l in rows && rows[l] == original then rows[l := r.value.out] else rows
  }

  /** The table as it would be with no rotation at all. */
  function Untouched(rows: Rows, c: Change): Rows {
    if c.Outside? then Put(rows, c.loc, c.blob) else rows
  }

  function AfterAll(rows: Rows, k: Rotation, cs: seq<Change>): Rows {
    if cs == [] then rows else After(AfterAll(rows, k, cs[..|cs| - 1]), k, cs[|cs| - 1])
  }

  function UntouchedAll(rows: Rows, cs: seq<Change>): Rows {
    if cs == [] then rows else Untouched(UntouchedAll(rows, cs[..|cs| - 1]), cs[|cs| - 1])
  }

  /** The same rows, each with the same secret under one of the two keys, its body byte for byte. */
  ghost predicate SameSecrets(a: Rows, b: Rows, k: Rotation) {
    a.Keys == b.Keys && forall l :: l in a ==> SameSecret(a[l], b[l], l, k.fromKey, k.toKey)
  }

  lemma SameSecretIsSymmetricInKeys(a: Blob, b: Blob, context: Loc, k: Key, k': Key)
    requires SameSecret(a, b, context, k, k')
    ensures SameSecret(a, b, context, k', k)
  {
    if a != b {
      var x :| x in DataKeys(a, context, k, k') && x in DataKeys(b, context, k, k');
      assert x in DataKeys(a, context, k', k) && x in DataKeys(b, context, k', k);
    }
  }

  lemma WriteKeepsSecrets(base: Rows, rows: Rows, k: Rotation, c: Change)
    requires SameSecrets(base, rows, k)
    ensures SameSecrets(Untouched(base, c), After(rows, k, c), k)
  {
    if c.Write? {
      RewrapKeepsTheSecret(c.original, c.loc, k.fromKey, k.toKey, c.nonce);
      RewrapKeepsTheSecret(c.original, c.loc, k.toKey, k.fromKey, c.nonce);
      var next := After(rows, k, c);
      if next != rows {
        if c.backwards { SameSecretIsSymmetricInKeys(c.original, next[c.loc], c.loc, k.toKey, k.fromKey); }
        SameSecretIsTransitive(base[c.loc], rows[c.loc], next[c.loc], c.loc, k.fromKey, k.toKey);
      }
    }
  }

  /**
    At every moment of any history of runs, forwards or backwards, stopped anywhere, with other writers between
    their writes, each row holds what the last other writer left there: the same body, and the same secret under
    the old key or the new one.
  */
  lemma {:induction false} RotationIsInvisible(rows: Rows, k: Rotation, cs: seq<Change>)
    ensures SameSecrets(UntouchedAll(rows, cs), AfterAll(rows, k, cs), k)
    ensures forall l :: l in UntouchedAll(rows, cs) ==>
      && l in AfterAll(rows, k, cs)
      && SecretEither(AfterAll(rows, k, cs)[l], l, k.fromKey, k.toKey) == SecretEither(UntouchedAll(rows, cs)[l], l, k.fromKey, k.toKey)
  {
    if cs != [] {
      RotationIsInvisible(rows, k, cs[..|cs| - 1]);
      WriteKeepsSecrets(UntouchedAll(rows, cs[..|cs| - 1]), AfterAll(rows, k, cs[..|cs| - 1]), k, cs[|cs| - 1]);
    }
    var a, b := UntouchedAll(rows, cs), AfterAll(rows, k, cs);
    forall l | l in a ensures SecretEither(b[l], l, k.fromKey, k.toKey) == SecretEither(a[l], l, k.fromKey, k.toKey) {
      SameSecretReadsTheSame(a[l], b[l], l, k.fromKey, k.toKey);
    }
  }

  // ----- completed runs -----

  /** No registered row is unreadable: the default mode's preflight passes. */
  ghost predicate PreflightPasses(k: Rotation, rows: Rows, present: set<Column>) {
    forall l :: l in rows && Registered(l, present) ==> !Unreadable(k, rows, l)
  }

  /**
    From any state an interrupted run left, a run passes preflight exactly when it would have before, and
    finishes it: every row that opened under either key now opens under the new one and decrypts there to the
    secret it held at the start.
  */
  lemma AReRunFinishes(start: Rows, now: Rows, k: Rotation, present: set<Column>)
    requires SameSecrets(start, now, k)
    ensures PreflightPasses(k, now, present) <==> PreflightPasses(k, start, present)
    ensures Rotated(k, now, present).Keys == start.Keys
    ensures forall l :: l in start && Registered(l, present) ==>
      DecryptSecret(Rotated(k, now, present)[l], l, k.toKey) == SecretEither(start[l], l, k.fromKey, k.toKey)
  {
    forall l | l in start
      ensures l in now && (Unreadable(k, now, l) <==> Unreadable(k, start, l))
      ensures Registered(l, present) ==>
        DecryptSecret(Rotated(k, now, present)[l], l, k.toKey) == SecretEither(start[l], l, k.fromKey, k.toKey)
    {
      RewrapKeepsTheSecret(start[l], l, k.fromKey, k.toKey, k.nonce(l));
      RewrapKeepsTheSecret(now[l], l, k.fromKey, k.toKey, k.nonce(l));
      SameSecretReadsTheSame(start[l], now[l], l, k.fromKey, k.toKey);
    }
  }

  /** From any such state a run with the keys swapped rolls back: every row decrypts under the old key as at the start. */
  lemma ASwappedRunRollsBack(start: Rows, now: Rows, k: Rotation, nonce: Loc -> Nonce, present: set<Column>)
    requires SameSecrets(start, now, k)
    ensures
      var back := Rotated(Rotation(k.toKey, k.fromKey, nonce), now, present);
      && back.Keys == start.Keys
      && forall l :: l in start && Registered(l, present) && VerifyWrap(start[l], l, k.fromKey) ==>
           && DecryptSecret(back[l], l, k.fromKey) == DecryptSecret(start[l], l, k.fromKey)
           && back[l].Envelope? && back[l].body == start[l].body
  {
    var swapped := Rotation(k.toKey, k.fromKey, nonce);
    forall l | l in start ensures SameSecret(start[l], now[l], l, k.toKey, k.fromKey) {
      SameSecretIsSymmetricInKeys(start[l], now[l], l, k.fromKey, k.toKey);
    }
    AReRunFinishes(start, now, swapped, present);
    forall l | l in start && Registered(l, present) && VerifyWrap(start[l], l, k.fromKey)
      ensures Rotated(swapped, now, present)[l].Envelope? && Rotated(swapped, now, present)[l].body == start[l].body
      ensures SecretEither(start[l], l, k.toKey, k.fromKey) == DecryptSecret(start[l], l, k.fromKey)
    {
      RewrapKeepsTheSecret(now[l], l, k.toKey, k.fromKey, nonce(l));
      SameSecretReadsTheSame(start[l], now[l], l, k.fromKey, k.toKey);
    }
  }

  /** After a completed run in recovery mode, the rows that fail under the new key are exactly the quarantined ones. */
  lemma BadRowsAreTheQuarantined(k: Rotation, rows: Rows, present: set<Column>, c: Column)
    requires c in COLUMNS
    ensures
      var v := VerifyOf(Rotated(k, rows, present), present, k.toKey, c);
      && v.bad == ResultOf(k, rows, present, true, c).corrupt
      && v.missing == ResultOf(k, rows, present, true, c).missing
      && v.ok == ResultOf(k, rows, present, true, c).rewrapped + ResultOf(k, rows, present, true, c).skipped
  {
    if c in present {
      var after := Rotated(k, rows, present);
      var ls := Among(rows, c);
      assert Among(after, c) == ls;
      forall l | l in ls ensures VerifyWrap(after[l], l, k.toKey) <==> !Unreadable(k, rows, l) {
        RewrapKeepsTheSecret(rows[l], l, k.fromKey, k.toKey, k.nonce(l));
      }
      assert ls - Passing(after, ls, k.toKey) == Corrupt(k, rows, ls);
      assert Passing(after, ls, k.toKey) == ToWrite(k, rows, ls) + AlreadyNew(k, rows, ls);
    }
  }
}
