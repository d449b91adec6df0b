/**
  What the staging restore does with each file (ops/staging/recovery_point.py:283-353), said of the names in the
  directory: where a sidecar is at every moment until the sweep, and exactly when a crash can lose it; whose restore
  a later attempt goes on with; and what is there when one returns.
*/
module RecoveryLaws {
  import opened Common
  import opened RecoverySpec

  // ----- phase 2, uninterrupted -----

  /** Every sidecar under its quarantine name, and every other file as it was. */
  ghost predicate SetAside(d: Dir, d': Dir, token: Token) {
    && (forall k: nat :: k < 3 ==> Side(k) !in d')
    && (forall k: nat :: k < 3 && Side(k) in d ==> Quarantine(k, token) in d' && d'[Quarantine(k, token)] == d[Side(k)])
    && (forall n: Name :: !n.Side? && !IsPlaceOf(d, n, token) ==> (n in d' <==> n in d) && (n in d ==> d'[n] == d[n]))
  }

  /** The name a sidecar that is there is moved to. */
  predicate IsPlaceOf(d: Dir, n: Name, token: Token) {
    n.Quarantine? && n.token == token && n.k < 3 && Side(n.k) in d
  }

  /** What the first k moves have done. */
  ghost predicate SetAsideTo(d: Dir, d': Dir, token: Token, k: nat) {
    && (forall j: nat :: j < k ==> Side(j) !in d')
    && (forall j: nat :: j < k && Side(j) in d ==> Quarantine(j, token) in d' && d'[Quarantine(j, token)] == d[Side(j)])
    && (forall j: nat :: j >= k ==> (Side(j) in d' <==> Side(j) in d) && (Side(j) in d ==> d'[Side(j)] == d[Side(j)]))
    && (forall n: Name :: !n.Side? && !(IsPlaceOf(d, n, token) && n.k < k) ==> (n in d' <==> n in d) && (n in d ==> d'[n] == d[n]))
  }

  /** The directory after the k-th move, if there is anything to move. */
  function Moved(d: Dir, token: Token, k: nat): Dir {
    if Side(k) in d then Renamed(d, Side(k), Quarantine(k, token)) else d
  }

  lemma MovedOne(d: Dir, d': Dir, token: Token, k: nat)
    requires k < 3 && SetAsideTo(d, d', token, k)
    ensures SetAsideTo(d, Moved(d', token, k), token, k + 1)
  {
  }

  lemma OneMove(p: Point, s: State, s': State, d: Dir, k: nat)
    requires s.pc == Aside(k) && k < 3 && Step(p, s, s') && SetAsideTo(d, Last(s.db), s.token, k)
    ensures s'.db != [] && SetAsideTo(d, Last(s'.db), s.token, k + 1)
    ensures s'.token == s.token && s'.pc == if k < 2 then Aside(k + 1) else SyncAside
  {
    MovedOne(d, Last(s.db), s.token, k);
  }

  /** From the first of its moves to its fsync, phase 2 sets every sidecar aside, durably, and touches nothing else. */
  lemma PhaseTwoSetsAside(p: Point, h: seq<State>, i: nat)
    requires i + 4 < |h| && h[i].pc == Aside(0) && forall m :: i <= m < i + 4 ==> Step(p, h[m], h[m + 1])
    ensures h[i].db != [] && |h[i + 4].db| == 1 && SetAside(Last(h[i].db), h[i + 4].db[0], h[i].token)
  {
    assert Step(p, h[i], h[i + 1]);
    var d := Last(h[i].db);
    assert SetAsideTo(d, d, h[i].token, 0);
    OneMove(p, h[i], h[i + 1], d, 0);
    OneMove(p, h[i + 1], h[i + 2], d, 1);
    OneMove(p, h[i + 2], h[i + 3], d, 2);
    assert Step(p, h[i + 3], h[i + 4]);
  }

  // ----- interrupted anywhere -----

  /** The sidecar's file is there, under its own name or set aside. */
  predicate IsThere(d: Dir, k: nat, t: Token, f: File) {
    if Side(k) in d then d[Side(k)] == f else Quarantine(k, t) in d && d[Quarantine(k, t)] == f
  }

  ghost predicate Lost(d: Dir, k: nat, f: File) {
    forall t :: !IsThere(d, k, t, f)
  }

  /** In every state since the last fsync; and once it is gone from its own name it does not come back. */
  ghost predicate Tracked(h: seq<Dir>, k: nat, t: Token, f: File) {
    && h != []
    && (forall i :: 0 <= i < |h| ==> IsThere(h[i], k, t, f))
    && (forall i, j :: 0 <= i < j < |h| && Side(k) in h[j] ==> Side(k) in h[i])
  }

  ghost predicate Located(h: seq<Dir>, k: nat, f: File) {
    exists t :: Tracked(h, k, t, f)
  }

  /** Its move is made and not yet durable: a crash can leave the directory from before or after it, name by name. */
  ghost predicate Moving(h: seq<Dir>, k: nat) {
    && (exists i :: 0 <= i < |h| && Side(k) in h[i])
    && (exists i :: 0 <= i < |h| && Side(k) !in h[i])
  }

  lemma ChangeTracks(h: seq<Dir>, d: Dir, k: nat, t: Token, f: File)
    requires Tracked(h, k, t, f) && IsThere(d, k, t, f) && (Side(k) in d ==> Side(k) in Last(h))
    ensures Located(Changed(h, d), k, f)
  {
    assert Tracked(Changed(h, d), k, t, f);
  }

  lemma FsyncTracks(h: seq<Dir>, k: nat, f: File)
    requires Located(h, k, f)
    ensures Located(Fsynced(h), k, f)
  {
    var t :| Tracked(h, k, t, f);
    assert Tracked(Fsynced(h), k, t, f);
  }

  lemma MoveTracks(p: Point, s: State, s': State, k: nat, f: File)
    requires s.pc.Aside? && Step(p, s, s') && Located(s.db, k, f)
    ensures Located(s'.db, k, f)
  {
    var t :| Tracked(s.db, k, t, f);
    if s'.db != s.db {
      var d := Last(s'.db);
      if s.pc.k == k {
        assert Side(k) in Last(s.db);
        assert Tracked(s.db, k, s.token, f);
        ChangeTracks(s.db, d, k, s.token, f);
      } else {
        ChangeTracks(s.db, d, k, t, f);
      }
    }
  }

  lemma StepTracks(p: Point, d0: Dir, s: State, s': State, k: nat, f: File)
    requires Inv(p, d0, s) && Step(p, s, s') && !s.pc.Sweep? && Located(s.db, k, f)
    ensures Located(s'.db, k, f)
  {
    if s.pc.Aside? {
      MoveTracks(p, s, s', k, f);
    } else if s.pc in {SyncAside, SyncInstall, SyncClear} {
      FsyncTracks(s.db, k, f);
    } else if s'.db != s.db {
      var t :| Tracked(s.db, k, t, f);
      ChangeTracks(s.db, Last(s'.db), k, t, f);
    }
  }

  lemma CrashTracks(h: seq<Dir>, d: Dir, k: nat, f: File)
    requires Located(h, k, f) && f.synced && DirSurvives(h, d) && !Moving(h, k)
    ensures Located([d], k, f)
  {
    var t :| Tracked(h, k, t, f);
    assert IsThere(h[0], k, t, f);
    assert Tracked([d], k, t, f);
  }

  /** The calls up to j make no sweep, and no crash of theirs comes while sidecar k is moving. */
  ghost predicate Untroubled(p: Point, h: seq<State>, j: nat, k: nat)
    requires j < |h|
  {
    forall m :: 0 <= m < j ==> NoSweep(p, h[m], h[m + 1]) && (Crash(h[m], h[m + 1]) ==> !Moving(h[m].db, k))
  }

  /**
    Through any number of attempts, killed anywhere, and crashed anywhere but while it is moving, a sidecar's file is
    in the directory, under its own name or set aside, until an attempt sweeps.
  */
  lemma {:induction false} ASidecarIsThereUntilTheSweep(p: Point, d0: Dir, h: seq<State>, j: nat, k: nat)
    requires IsHistory(p, d0, h) && j < |h| && Untroubled(p, h, j, k) && Side(k) in d0
    ensures Located(h[j].db, k, d0[Side(k)])
    decreases j
  {
    var f := d0[Side(k)];
    if j == 0 {
      assert Tracked(h[0].db, k, 0, f);
    } else {
      ASidecarIsThereUntilTheSweep(p, d0, h, j - 1, k);
      HistoryKeeps(p, d0, h, j - 1);
      assert NoSweep(p, h[j - 1], h[j]);
      if Crash(h[j - 1], h[j]) {
        assert h[j].db == [h[j].db[0]];
        CrashTracks(h[j - 1].db, h[j].db[0], k, f);
      } else if !Dies(h[j - 1], h[j]) {
        StepTracks(p, d0, h[j - 1], h[j], k, f);
      }
    }
  }

  /** It is under one name at a time. */
  ghost predicate OneName(h: seq<Dir>, k: nat) {
    forall i, t :: 0 <= i < |h| && Side(k) in h[i] ==> Quarantine(k, t) !in h[i]
  }

  lemma MomentKeepsOneName(p: Point, s: State, s': State, k: nat, f: File)
    requires NoSweep(p, s, s') && (Crash(s, s') ==> !Moving(s.db, k)) && Located(s.db, k, f) && OneName(s.db, k)
    ensures OneName(s'.db, k)
  {
    if Crash(s, s') {
      forall t | Side(k) in s'.db[0] ensures Quarantine(k, t) !in s'.db[0] {
        var i :| 0 <= i < |s.db| && Side(k) in s.db[i];
        assert forall m :: 0 <= m < |s.db| ==> Side(k) in s.db[m] && Quarantine(k, t) !in s.db[m];
      }
    }
  }

  lemma {:induction false} OneNameThroughout(p: Point, d0: Dir, h: seq<State>, j: nat, k: nat)
    requires IsHistory(p, d0, h) && j < |h| && Untroubled(p, h, j, k)
    requires Side(k) in d0 && forall t :: Quarantine(k, t) !in d0
    ensures OneName(h[j].db, k)
    decreases j
  {
    if j > 0 {
      OneNameThroughout(p, d0, h, j - 1, k);
      ASidecarIsThereUntilTheSweep(p, d0, h, j - 1, k);
      MomentKeepsOneName(p, h[j - 1], h[j], k, d0[Side(k)]);
    }
  }

  /** What the disk may hold after a crash that takes the sidecar's old name and not its new one. */
  function WithoutIt(d: Dir, k: nat): Dir {
    map n | n in d && n != Side(k) :: d[n].(synced := true)
  }

  lemma TheWorstCrash(s: State, k: nat) returns (c: State)
    requires s.db != [] && s.rp != [] && Side(k) in s.db[0] && Moving(s.db, k)
    ensures Crash(s, c) && c.db == [WithoutIt(s.db[0], k)]
  {
    var rp := map n | n in Last(s.rp) :: Last(s.rp)[n].(synced := true);
    c := State([WithoutIt(s.db[0], k)], [rp], Down, s.token, s.tmp);
    assert DirSurvives(s.db, c.db[0]);
    assert RpSurvives(s.rp, rp) by {
      forall n | n in rp
        ensures exists i :: 0 <= i < |s.rp| && n in s.rp[i] && (s.rp[i][n].synced ==> rp[n] == s.rp[i][n]) && rp[n].synced
      {
        assert n in s.rp[|s.rp| - 1];
      }
      forall n | n !in rp ensures exists i :: 0 <= i < |s.rp| && n !in s.rp[i] { assert n !in s.rp[|s.rp| - 1]; }
    }
  }

  /**
    A crash can lose a sidecar's file if and only if it comes after the move of that sidecar and before the directory
    is synced: then the old name may be gone and the new one not there yet. (An older quarantine of it could hold the
    same file.)
  */
  lemma ACrashCanLoseASidecarExactly(p: Point, d0: Dir, h: seq<State>, j: nat, k: nat)
    requires IsHistory(p, d0, h) && j < |h| && Untroubled(p, h, j, k)
    requires Side(k) in d0 && forall t :: Quarantine(k, t) !in d0
    ensures (exists c :: Crash(h[j], c) && Lost(c.db[0], k, d0[Side(k)])) <==> Moving(h[j].db, k)
  {
    ASidecarIsThereUntilTheSweep(p, d0, h, j, k);
    HistoryKeeps(p, d0, h, j);
    var s, f := h[j], d0[Side(k)];
    OneNameThroughout(p, d0, h, j, k);
    if Moving(s.db, k) {
      TheFirstHasIt(s.db, k, f);
      var c := TheWorstCrash(s, k);
      forall t ensures !IsThere(c.db[0], k, t, f) { assert Quarantine(k, t) !in s.db[0]; }
      assert Crash(s, c) && Lost(c.db[0], k, f);
    } else {
      forall c | Crash(s, c) ensures !Lost(c.db[0], k, f) {
        CrashTracks(s.db, c.db[0], k, f);
        var t :| Tracked([c.db[0]], k, t, f);
        assert IsThere([c.db[0]][0], k, t, f);
      }
    }
  }

  /** Moves are made once: of the states a crash can mix the first still has the sidecar. */
  lemma TheFirstHasIt(h: seq<Dir>, k: nat, f: File)
    requires Located(h, k, f) && Moving(h, k)
    ensures Side(k) in h[0]
  {
  }

  // ----- every sidecar, from any attempt on -----

  ghost predicate SidesSynced(h: seq<Dir>) {
    forall i, k :: 0 <= i < |h| && Side(k) in h[i] ==> h[i][Side(k)].synced
  }

  lemma StepSidesSynced(p: Point, s: State, s': State)
    requires Step(p, s, s') && SidesSynced(s.db)
    ensures SidesSynced(s'.db)
  {
  }

  lemma {:induction false} SidecarsAreSynced(p: Point, d0: Dir, h: seq<State>, j: nat)
    requires IsHistory(p, d0, h) && j < |h|
    ensures SidesSynced(h[j].db)
    decreases j
  {
    if j > 0 {
      SidecarsAreSynced(p, d0, h, j - 1);
      if Crash(h[j - 1], h[j]) { assert h[j].db == [h[j].db[0]]; }
      else if !Dies(h[j - 1], h[j]) { StepSidesSynced(p, h[j - 1], h[j]); }
    }
  }

  /**
    Every sidecar an attempt finds, set aside by its phase 2, is in every state any crash could leave, through every
    later attempt, until one sweeps.
  */
  lemma WhatPhaseTwoMovesSurvives(p: Point, d0: Dir, h: seq<State>, i: nat, j: nat, k: nat)
    requires IsHistory(p, d0, h) && i + 4 <= j < |h| && h[i].pc == Aside(0)
    requires forall m :: i <= m < i + 4 ==> Step(p, h[m], h[m + 1])
    requires forall m :: i + 4 <= m < j ==> NoSweep(p, h[m], h[m + 1])
    requires h[i].db != [] && k < 3 && Side(k) in Last(h[i].db)
    ensures Holds(h[j].db, Quarantine(k, h[i].token), Last(h[i].db)[Side(k)]) && AllClear(h[j].db)
  {
    PhaseTwoSetsAside(p, h, i);
    SidecarsAreSynced(p, d0, h, i);
    HistoryKeeps(p, d0, h, i + 4);
    PhaseTwoEnds(p, h, i);
    KeptOn(p, h, i + 4, j, Quarantine(k, h[i].token), Last(h[i].db)[Side(k)]);
  }

  lemma PhaseTwoEnds(p: Point, h: seq<State>, i: nat)
    requires i + 4 < |h| && h[i].pc == Aside(0) && forall m :: i <= m < i + 4 ==> Step(p, h[m], h[m + 1])
    ensures h[i + 4].pc == if p.absent then DropBase else MakeCopy
  {
    assert Step(p, h[i], h[i + 1]) && h[i + 1].pc == Aside(1);
    assert Step(p, h[i + 1], h[i + 2]) && h[i + 2].pc == Aside(2);
    assert Step(p, h[i + 2], h[i + 3]) && h[i + 3].pc == SyncAside;
    assert Step(p, h[i + 3], h[i + 4]);
  }

  // ----- one restore, one token -----

  /** Every state file a crash can leave names the token, and an attempt under way goes by it. */
  ghost predicate GoesBy(s: State, t: Token) {
    && s.rp != []
    && (forall i :: 0 <= i < |s.rp| ==> StateFile in s.rp[i] && s.rp[i][StateFile].token == Some(t))
    && (!s.pc.Down? ==> s.token == t)
  }

  lemma StepGoesBy(p: Point, d0: Dir, s: State, s': State, t: Token)
    requires Inv(p, d0, s) && Step(p, s, s') && !s.pc.DropState? && GoesBy(s, t)
    ensures GoesBy(s', t)
  {
  }

  lemma CrashGoesBy(s: State, s': State, t: Token)
    requires NotesSynced(s.rp) && Crash(s, s') && GoesBy(s, t)
    ensures GoesBy(s', t)
  {
    assert s'.rp == [s'.rp[0]];
  }

  lemma MomentGoesBy(p: Point, d0: Dir, s: State, s': State, t: Token)
    requires Inv(p, d0, s) && (Step(p, s, s') || Interrupted(s, s')) && !s.pc.DropState? && GoesBy(s, t)
    ensures GoesBy(s', t)
  {
    if Crash(s, s') { CrashGoesBy(s, s', t); }
    else if !Dies(s, s') { StepGoesBy(p, d0, s, s', t); }
  }

  lemma HistoryGoesBy(p: Point, d0: Dir, h: seq<State>, m: nat, t: Token)
    requires IsHistory(p, d0, h) && m + 1 < |h| && !h[m].pc.DropState? && GoesBy(h[m], t)
    ensures GoesBy(h[m + 1], t)
  {
    HistoryKeeps(p, d0, h, m);
    MomentGoesBy(p, d0, h[m], h[m + 1], t);
  }

  lemma {:induction false} TokensStay(p: Point, d0: Dir, h: seq<State>, i: nat, j: nat, t: Token)
    requires IsHistory(p, d0, h) && i <= j < |h| && GoesBy(h[i], t)
    requires forall m :: i <= m < j ==> !h[m].pc.DropState?
    ensures GoesBy(h[j], t)
    decreases j
  {
    if i < j {
      TokensStay(p, d0, h, i, j - 1, t);
      HistoryGoesBy(p, d0, h, j - 1, t);
    }
  }

  lemma SyncedGoesBy(p: Point, d0: Dir, s: State, s': State)
    requires Inv(p, d0, s) && s.pc.SyncState? && Step(p, s, s')
    ensures GoesBy(s', s.token) && !s'.pc.DropState?
  {
  }

  /** Once its state file is durable a restore goes on under one token, whatever interrupts it, until it drops that file. */
  lemma ARestoreKeepsItsToken(p: Point, d0: Dir, h: seq<State>, i: nat, j: nat)
    requires IsHistory(p, d0, h) && i < j < |h| && h[i].pc.SyncState? && Step(p, h[i], h[i + 1])
    requires forall m :: i < m < j ==> !h[m].pc.DropState?
    ensures GoesBy(h[j], h[i].token)
  {
    HistoryKeeps(p, d0, h, i);
    SyncedGoesBy(p, d0, h[i], h[i + 1]);
    TokensStay(p, d0, h, i + 1, j, h[i].token);
  }

  // ----- what a finished restore leaves -----

  lemma {:induction false} ContainsExactly(name: string, part: string)
    ensures Contains(name, part) <==> exists i :: 0 <= i <= |name| && part <= name[i..]
  {
    if part <= name {
      assert name[0..] == name;
    } else if name != "" {
      ContainsExactly(name[1..], part);
      if Contains(name[1..], part) {
        var i :| 0 <= i <= |name[1..]| && part <= name[1..][i..];
        assert name[1..][i..] == name[i + 1..];
      }
      if exists i :: 0 <= i <= |name| && part <= name[i..] {
        var i :| 0 <= i <= |name| && part <= name[i..];
        assert i != 0 && name[1..][i - 1..] == name[i..];
      }
    }
  }

  /** The name begins like this database's, dotted, and has the mark of a quarantine or of a restore's copy somewhere. */
  ghost predicate LooksLeftOver(base: string, name: string) {
    && "." + base <= name
    && exists i :: 0 <= i <= |name| && (".quarantine-" <= name[i..] || "." + base + ".restore-" <= name[i..])
  }

  lemma TheFilterExactly(base: string, name: string)
    ensures Matches(base, name) <==> LooksLeftOver(base, name)
  {
    ContainsExactly(name, ".quarantine-");
    ContainsExactly(name, "." + base + ".restore-");
  }

  /**
    When an attempt returns, the directory holds the recorded copy (or no database), every file of another name that
    does not look left over, as it was, and nothing more: whatever was there before and however often it was cut off.
  */
  lemma WhatARestoreLeaves(p: Point, d0: Dir, h: seq<State>, i: nat)
    requires IsHistory(p, d0, h) && i + 1 < |h| && h[i].pc.SyncDone? && Step(p, h[i], h[i + 1])
    ensures |h[i + 1].db| == 1 && h[i + 1].rp != []
    ensures forall n :: n in h[i + 1].db[0] <==>
      (n == Base && !p.absent) || (n.Foreign? && n in d0 && !LooksLeftOver(p.base, n.name))
    ensures forall n :: n in h[i + 1].db[0] ==> h[i + 1].db[0][n] == if n == Base then File(p.copy, true, true) else d0[n]
    ensures StateFile !in h[i + 1].rp[0]
  {
    ReturnIsComplete(p, d0, h, i);
    HistoryKeeps(p, d0, h, i + 1);
    var d := h[i + 1].db[0];
    assert SameForeign(p.base, d0, d);
    forall n | n in d ensures !n.Quarantine? && !n.Temp? { assert n !in Leftovers(p.base, d); }
    forall n: Name | n.Foreign? ensures Matches(p.base, n.name) <==> LooksLeftOver(p.base, n.name) {
      TheFilterExactly(p.base, n.name);
    }
  }
}
