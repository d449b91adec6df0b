/**
  The staging restore (ops/staging/recovery_point.py, restore) as a machine that takes one file-system call
  at a time. Between any two calls the power may fail, or only the process die.

  A directory is the sequence of states it has had since it was last fsynced. A crash leaves, for each name
  on its own, the entry it had in any one of those states: any subset of the un-fsynced directory changes is
  lost, and a rename is not assumed to survive or vanish as one. A file that was never fsynced survives with
  arbitrary contents. Nothing but the restore writes (the service is stopped).
*/
module RecoverySpec {
  import opened Common

  type Data = int
  type Token = nat

  /** -wal, -shm and -journal. */
  const SIDECARS: nat := 3

  /** Entries of the database directory: the database, its sidecars, what its restore leaves, any file of another name. */
  datatype Name = Base | Side(k: nat) | Quarantine(k: nat, token: Token) | Temp(token: Token, r: Token) | Foreign(name: string)

  /** A file: its bytes, whether they are fsynced, and whether a restore wrote it. */
  datatype File = File(data: Data, synced: bool, ours: bool)

  type Dir = map<Name, File>

  /** Entries of the recovery point's own directory that restore writes. */
  datatype RpName = StateFile | StateTmp

  /** The state file: the restore's token if it parses, and whether it is fsynced. */
  datatype Note = Note(token: Option<Token>, synced: bool)

  type RpDir = map<RpName, Note>

  /** The recovery point: the database's file name, and the recorded copy or the recorded absence. */
  datatype Point = Point(base: string, absent: bool, copy: Data)

  /** The next call. */
  datatype Pc =
    | Down
    | DropTmp | MakeTmp | SyncTmp | RenameState | SyncState
    | Aside(k: nat) | SyncAside
    | DropBase | MakeCopy | SyncCopy | RenameCopy | SyncInstall
    | Clear(k: nat) | Sweep | SyncClear
    | DropState | SyncDone

  datatype State = State(db: seq<Dir>, rp: seq<RpDir>, pc: Pc, token: Token, tmp: Token)

  function Last<T>(h: seq<T>): T
    requires h != []
  {
    h[|h| - 1]
  }

  /** The directory changes; the change is not yet durable. */
  function Changed<T>(h: seq<T>, d: T): seq<T> {
    h + [d]
  }

  /** fsync of the directory: the current state is the only one a crash can leave. */
  function Fsynced<T>(h: seq<T>): seq<T>
    requires h != []
  {
    [Last(h)]
  }

  function Renamed(d: Dir, from: Name, to: Name): Dir
    requires from in d
  {
    (d - {from})[to := d[from]]
  }

  predicate Contains(name: string, part: string) {
    part <= name || (name != "" && Contains(name[1..], part))
  }

  /** The sweep's filter. */
  predicate Matches(base: string, name: string) {
    "." + base <= name && (Contains(name, ".quarantine-") || Contains(name, "." + base + ".restore-"))
  }

  /** What the sweep removes: whatever restores of this database left, and any other file its filter matches. */
  predicate IsLeftover(base: string, n: Name) {
    n.Quarantine? || n.Temp? || (n.Foreign? && Matches(base, n.name))
  }

  function Leftovers(base: string, d: Dir): set<Name> {
    set n | n in d && IsLeftover(base, n)
  }

  /** The token of a restore that was interrupted: the state file's, when it parses. */
  function Prior(d: RpDir): Option<Token> {
    if StateFile in d then d[StateFile].token else None
  }

  // ----- one call -----

  /** One call of an attempt. A new token or temporary name is random: any name not in use. */
  predicate Step(p: Point, s: State, s': State) {
    && s.db != [] && s.rp != []
    && var db, rp := Last(s.db), Last(s.rp);
       match s.pc
       case Down => s' == s.(pc := DropTmp, token := s'.token) && (Prior(rp).Some? ==> Some(s'.token) == Prior(rp))
       case DropTmp => s' == s.(pc := MakeTmp, rp := if StateTmp in rp then Changed(s.rp, rp - {StateTmp}) else s.rp)
       case MakeTmp => StateTmp !in rp && s' == s.(pc := SyncTmp, rp := Changed(s.rp, rp[StateTmp := Note(None, false)]))
       case SyncTmp => s' == s.(pc := RenameState, rp := Changed(s.rp, rp[StateTmp := Note(Some(s.token), true)]))
       case RenameState =>
         && StateTmp in rp
         && s' == s.(pc := SyncState, rp := Changed(s.rp, (rp - {StateTmp})[StateFile := rp[StateTmp]]))
       case SyncState => s' == s.(pc := Aside(0), rp := Fsynced(s.rp))
       case Aside(k) =>
         s' == s.(pc := if k + 1 < SIDECARS then Aside(k + 1) else SyncAside,
                  db := if Side(k) in db then Changed(s.db, Renamed(db, Side(k), Quarantine(k, s.token))) else s.db)
       case SyncAside => s' == s.(pc := if p.absent then DropBase else MakeCopy, db := Fsynced(s.db))
       case DropBase => s' == s.(pc := SyncInstall, db := if Base in db then Changed(s.db, db - {Base}) else s.db)
       case MakeCopy =>
         && Temp(s.token, s'.tmp) !in db
         && s' == s.(pc := SyncCopy, tmp := s'.tmp, db := Changed(s.db, db[Temp(s.token, s'.tmp) := File(0, false, true)]))
       case SyncCopy =>
         s' == s.(pc := RenameCopy, db := Changed(s.db, db[Temp(s.token, s.tmp) := File(p.copy, true, true)]))
       case RenameCopy =>
         && Temp(s.token, s.tmp) in db
         && s' == s.(pc := SyncInstall, db := Changed(s.db, Renamed(db, Temp(s.token, s.tmp), Base)))
       case SyncInstall => s' == s.(pc := Clear(0), db := Fsynced(s.db))
       case Clear(k) =>
         s' == s.(pc := if k + 1 < SIDECARS then Clear(k + 1) else Sweep,
                  db := if Side(k) in db then Changed(s.db, db - {Side(k)}) else s.db)
       case Sweep =>
         if Leftovers(p.base, db) == {} then s' == s.(pc := SyncClear)
         else s'.db != [] && exists n :: n in Leftovers(p.base, db) && s' == s.(db := Changed(s.db, db - {n}))
       case SyncClear => s' == s.(pc := DropState, db := Fsynced(s.db))
       case DropState => StateFile in rp && s' == s.(pc := SyncDone, rp := Changed(s.rp, rp - {StateFile}))
       case SyncDone => s' == s.(pc := Down, rp := Fsynced(s.rp))
  }

  // ----- a crash -----

  predicate FileSurvives(f: File, g: File) {
    if f.synced then g == f else g.synced && g.ours == f.ours
  }

  /** For each name on its own, the entry of some state since the last fsync. */
  ghost predicate DirSurvives(h: seq<Dir>, d: Dir) {
    && (forall n :: n in d ==> exists i :: 0 <= i < |h| && n in h[i] && FileSurvives(h[i][n], d[n]))
    && (forall n :: n !in d ==> exists i :: 0 <= i < |h| && n !in h[i])
  }

  ghost predicate RpSurvives(h: seq<RpDir>, d: RpDir) {
    && (forall n :: n in d ==> exists i :: 0 <= i < |h| && n in h[i] && (h[i][n].synced ==> d[n] == h[i][n]) && d[n].synced)
    && (forall n :: n !in d ==> exists i :: 0 <= i < |h| && n !in h[i])
  }

  /** The power fails: what is left is durable, and no attempt is running. */
  ghost predicate Crash(s: State, s': State) {
    && |s'.db| == 1 && |s'.rp| == 1 && s'.pc.Down?
    && DirSurvives(s.db, s'.db[0]) && RpSurvives(s.rp, s'.rp[0])
  }

  /** The process is killed, or gives up: what it had not fsynced stays so, under whatever attempt comes next. */
  predicate Dies(s: State, s': State) {
    s' == s.(pc := Down)
  }

  ghost predicate Interrupted(s: State, s': State) {
    Crash(s, s') || Dies(s, s')
  }

  // ----- what must hold -----

  predicate NoSidecars(d: Dir) {
    forall n :: n in d ==> !n.Side?
  }

  /** The database name holds what a restore put there (for a recorded absence: nothing). */
  predicate Installed(p: Point, d: Dir) {
    if p.absent then Base !in d else Base in d && d[Base].ours
  }

  /** The restore is done: the recorded copy or absence, no sidecar, nothing a restore left. */
  predicate Complete(p: Point, d: Dir) {
    && (if p.absent then Base !in d else Base in d && d[Base] == File(p.copy, true, true))
    && NoSidecars(d)
    && Leftovers(p.base, d) == {}
  }

  /** In no state of the directory a crash could mix is the restored database beside a live sidecar. */
  ghost predicate NeverHalf(p: Point, h: seq<Dir>) {
    || (forall i :: 0 <= i < |h| ==> !Installed(p, h[i]))
    || (forall i :: 0 <= i < |h| ==> NoSidecars(h[i]))
  }

  /** A restored file is whole, and sidecars are the three there are. */
  ghost predicate WholeFiles(p: Point, h: seq<Dir>) {
    && (forall i :: 0 <= i < |h| && Base in h[i] && h[i][Base].ours ==> h[i][Base] == File(p.copy, true, true))
    && (forall i, n :: 0 <= i < |h| && n in h[i] && n.Side? ==> n.k < SIDECARS)
  }

  /** Everything else in the directory is as it was, but for what the filter matches: that may be gone. */
  ghost predicate OthersKept(p: Point, d0: Dir, h: seq<Dir>) {
    && (forall n :: n in d0 ==> d0[n].synced)
    && (forall i :: 0 <= i < |h| ==> SameForeign(p.base, d0, h[i]))
  }

  ghost predicate SameForeign(base: string, d0: Dir, d: Dir) {
    forall n: Name :: n.Foreign? ==>
      && (n in d ==> n in d0 && d[n] == d0[n])
      && (n in d0 && n !in d ==> Matches(base, n.name))
  }

  ghost predicate AlwaysNoted(h: seq<RpDir>) {
    forall i :: 0 <= i < |h| ==> StateFile in h[i]
  }

  ghost predicate AllComplete(p: Point, h: seq<Dir>) {
    forall i :: 0 <= i < |h| ==> Complete(p, h[i])
  }

  /** The state file may be missing only over a directory nothing has touched yet, or a finished restore. */
  ghost predicate NotedUntilDone(p: Point, d0: Dir, s: State) {
    AlwaysNoted(s.rp) || s.db == [d0] || AllComplete(p, s.db)
  }

  ghost predicate NotesSynced(h: seq<RpDir>) {
    forall i :: 0 <= i < |h| && StateFile in h[i] ==> h[i][StateFile].synced
  }

  /** What holds at every call and after every crash. */
  ghost predicate Safe(p: Point, d0: Dir, s: State) {
    && s.db != [] && s.rp != []
    && NeverHalf(p, s.db) && WholeFiles(p, s.db) && OthersKept(p, d0, s.db)
    && NotedUntilDone(p, d0, s) && NotesSynced(s.rp)
  }

  /** The directory a restore may start from: no file of ours, and a missing database only without sidecars. */
  ghost predicate Fresh(p: Point, d0: Dir) {
    && (forall n :: n in d0 ==> d0[n].synced)
    && (Base in d0 ==> !d0[Base].ours)
    && (forall n :: n in d0 && n.Side? ==> n.k < SIDECARS)
    && (p.absent && Base !in d0 ==> NoSidecars(d0))
  }

  predicate NotStarted(pc: Pc) {
    pc in {DropTmp, MakeTmp, SyncTmp, RenameState, SyncState}
  }

  predicate Installing(pc: Pc) {
    pc in {DropBase, MakeCopy, SyncCopy, RenameCopy, SyncInstall}
  }

  predicate Clearing(pc: Pc) {
    pc.Clear? || pc in {Sweep, SyncClear}
  }

  /** The sidecars before k are out of the way. */
  predicate ClearedTo(d: Dir, k: nat) {
    forall n :: n in d && n.Side? ==> n.k >= k
  }

  ghost predicate AllClear(h: seq<Dir>) {
    forall i :: 0 <= i < |h| ==> NoSidecars(h[i])
  }

  ghost predicate AllInstalled(p: Point, h: seq<Dir>) {
    forall i :: 0 <= i < |h| ==> Installed(p, h[i])
  }

  /** What an attempt has achieved by each call. */
  ghost predicate Progress(p: Point, s: State)
    requires s.db != [] && s.rp != []
  {
    var db, rp := Last(s.db), Last(s.rp);
    && (s.pc.MakeTmp? ==> StateTmp !in rp)
    && (s.pc.SyncTmp? ==> StateTmp in rp)
    && (s.pc.RenameState? ==> StateTmp in rp && rp[StateTmp] == Note(Some(s.token), true))
    && (s.pc.SyncState? ==> StateFile in rp && rp[StateFile] == Note(Some(s.token), true))
    && (!s.pc.Down? && !NotStarted(s.pc) && !s.pc.SyncDone? ==> AlwaysNoted(s.rp))
    && (s.pc.Aside? ==> s.pc.k < SIDECARS && ClearedTo(db, s.pc.k))
    && (s.pc.SyncAside? ==> NoSidecars(db))
    && (Installing(s.pc) || Clearing(s.pc) ==> AllClear(s.db))
    && (s.pc.DropBase? ==> p.absent)
    && (s.pc in {MakeCopy, SyncCopy, RenameCopy} ==> !p.absent)
    && (s.pc.SyncCopy? ==> Temp(s.token, s.tmp) in db)
    && (s.pc.RenameCopy? ==> Temp(s.token, s.tmp) in db && db[Temp(s.token, s.tmp)] == File(p.copy, true, true))
    && (s.pc.SyncInstall? ==> Installed(p, db))
    && (Clearing(s.pc) ==> AllInstalled(p, s.db))
    && (s.pc.Clear? ==> s.pc.k < SIDECARS)
    && (s.pc.SyncClear? ==> Leftovers(p.base, db) == {})
    && (s.pc in {DropState, SyncDone} ==> AllComplete(p, s.db) && |s.db| == 1)
    && (s.pc.SyncDone? ==> StateFile !in rp)
  }

  ghost predicate Inv(p: Point, d0: Dir, s: State) {
    Safe(p, d0, s) && Progress(p, s)
  }

  /** Before the first attempt. */
  ghost predicate Init(p: Point, d0: Dir, s: State) {
    s.db == [d0] && s.rp == [map[]] && s.pc.Down? && Fresh(p, d0)
  }

  lemma InitHolds(p: Point, d0: Dir, s: State)
    requires Init(p, d0, s)
    ensures Inv(p, d0, s)
  {
  }

  // ----- every call keeps it -----

  /** A state of the directory that may join the ones a crash can mix. */
  ghost predicate MayFollow(p: Point, h: seq<Dir>, d: Dir)
    requires h != []
  {
    && (Base in d && d[Base].ours ==> d[Base] == File(p.copy, true, true))
    && (forall n :: n in d && n.Side? ==> n in Last(h))
    && SameForeign(p.base, Last(h), d)
    && ((AllClear(h) && NoSidecars(d)) || (Installed(p, d) ==> Installed(p, Last(h))))
  }

  lemma ChangeSafe(p: Point, d0: Dir, h: seq<Dir>, d: Dir)
    requires h != [] && NeverHalf(p, h) && WholeFiles(p, h) && OthersKept(p, d0, h) && MayFollow(p, h, d)
    ensures NeverHalf(p, Changed(h, d)) && WholeFiles(p, Changed(h, d)) && OthersKept(p, d0, Changed(h, d))
  {
  }

  lemma FsyncSafe(p: Point, d0: Dir, h: seq<Dir>)
    requires h != [] && NeverHalf(p, h) && WholeFiles(p, h) && OthersKept(p, d0, h)
    ensures NeverHalf(p, Fsynced(h)) && WholeFiles(p, Fsynced(h)) && OthersKept(p, d0, Fsynced(h))
  {
  }

  /** The calls that write the state file. */
  lemma NoteCallsKeep(p: Point, d0: Dir, s: State, s': State)
    requires Inv(p, d0, s) && Step(p, s, s') && (s.pc.Down? || s.pc in {DropTmp, MakeTmp, SyncTmp})
    ensures Inv(p, d0, s')
  {
  }

  lemma NotePlaced(p: Point, d0: Dir, s: State, s': State)
    requires Inv(p, d0, s) && Step(p, s, s') && s.pc in {RenameState, SyncState, DropState, SyncDone}
    ensures Inv(p, d0, s')
  {
  }

  lemma AsideKeeps(p: Point, d0: Dir, s: State, s': State)
    requires Inv(p, d0, s) && Step(p, s, s') && s.pc.Aside?
    ensures Inv(p, d0, s')
  {
    AsideSafe(p, d0, s, s');
    AsideProgress(p, d0, s, s');
  }

  lemma AsideSafe(p: Point, d0: Dir, s: State, s': State)
    requires Inv(p, d0, s) && Step(p, s, s') && s.pc.Aside?
    ensures Safe(p, d0, s')
  {
    var db := Last(s.db);
    if Side(s.pc.k) in db {
      ChangeSafe(p, d0, s.db, Renamed(db, Side(s.pc.k), Quarantine(s.pc.k, s.token)));
    }
  }

  lemma AsideProgress(p: Point, d0: Dir, s: State, s': State)
    requires Inv(p, d0, s) && Step(p, s, s') && s.pc.Aside? && Safe(p, d0, s')
    ensures Progress(p, s')
  {
    assert WholeFiles(p, s.db) && Last(s.db) == s.db[|s.db| - 1];
  }

  lemma InstallKeeps(p: Point, d0: Dir, s: State, s': State)
    requires Inv(p, d0, s) && Step(p, s, s') && s.pc in {SyncAside, DropBase, SyncInstall}
    ensures Inv(p, d0, s')
  {
    if s'.db == Fsynced(s.db) {
      FsyncSafe(p, d0, s.db);
    } else if s'.db != s.db {
      ChangeSafe(p, d0, s.db, Last(s'.db));
    }
  }

  lemma CopyKeeps(p: Point, d0: Dir, s: State, s': State)
    requires Inv(p, d0, s) && Step(p, s, s') && s.pc in {MakeCopy, SyncCopy, RenameCopy}
    ensures Inv(p, d0, s')
  {
    ChangeSafe(p, d0, s.db, Last(s'.db));
  }

  lemma ClearKeeps(p: Point, d0: Dir, s: State, s': State)
    requires Inv(p, d0, s) && Step(p, s, s') && Clearing(s.pc)
    ensures Inv(p, d0, s')
  {
    if s'.db == Fsynced(s.db) {
      FsyncSafe(p, d0, s.db);
    } else if s'.db != s.db {
      ChangeSafe(p, d0, s.db, Last(s'.db));
    }
  }

  /** Every call keeps the invariant. */
  lemma StepKeeps(p: Point, d0: Dir, s: State, s': State)
    requires Inv(p, d0, s) && Step(p, s, s')
    ensures Inv(p, d0, s')
  {
    if s.pc.Down? || s.pc in {DropTmp, MakeTmp, SyncTmp} { NoteCallsKeep(p, d0, s, s'); }
    else if s.pc in {RenameState, SyncState, DropState, SyncDone} { NotePlaced(p, d0, s, s'); }
    else if s.pc.Aside? { AsideKeeps(p, d0, s, s'); }
    else if Clearing(s.pc) { ClearKeeps(p, d0, s, s'); }
    else if s.pc in {MakeCopy, SyncCopy, RenameCopy} { CopyKeeps(p, d0, s, s'); }
    else { InstallKeeps(p, d0, s, s'); }
  }

  // ----- so does every crash -----

  lemma CrashComplete(p: Point, h: seq<Dir>, d: Dir)
    requires h != [] && AllComplete(p, h) && DirSurvives(h, d)
    ensures Complete(p, d)
  {
  }

  lemma CrashNeverHalf(p: Point, d0: Dir, h: seq<Dir>, d: Dir)
    requires h != [] && NeverHalf(p, h) && WholeFiles(p, h) && OthersKept(p, d0, h) && DirSurvives(h, d)
    ensures NeverHalf(p, [d]) && WholeFiles(p, [d]) && OthersKept(p, d0, [d])
  {
  }

  /** A crash at any call keeps the invariant, whatever it loses. */
  lemma CrashKeeps(p: Point, d0: Dir, s: State, s': State)
    requires Inv(p, d0, s) && Crash(s, s')
    ensures Inv(p, d0, s')
  {
    var d := s'.db[0];
    assert s'.db == [d];
    CrashNeverHalf(p, d0, s.db, d);
    if !AlwaysNoted(s.rp) {
      if s.db == [d0] {
        assert d == d0;
      } else {
        CrashComplete(p, s.db, d);
      }
    }
  }

  /** So does the death of the process. */
  lemma DeathKeeps(p: Point, d0: Dir, s: State, s': State)
    requires Inv(p, d0, s) && Dies(s, s')
    ensures Inv(p, d0, s')
  {
  }

  // ----- whole histories: any number of attempts, interrupted anywhere -----

  ghost predicate IsHistory(p: Point, d0: Dir, h: seq<State>) {
    && h != [] && Init(p, d0, h[0])
    && (forall i :: 0 <= i < |h| - 1 ==> Step(p, h[i], h[i + 1]) || Interrupted(h[i], h[i + 1]))
  }

  lemma {:induction false} HistoryKeeps(p: Point, d0: Dir, h: seq<State>, i: nat)
    requires IsHistory(p, d0, h) && i < |h|
    ensures Inv(p, d0, h[i])
    decreases i
  {
    if i == 0 {
      InitHolds(p, d0, h[0]);
    } else {
      HistoryKeeps(p, d0, h, i - 1);
      if Step(p, h[i - 1], h[i]) { StepKeeps(p, d0, h[i - 1], h[i]); }
      else if Dies(h[i - 1], h[i]) { DeathKeeps(p, d0, h[i - 1], h[i]); }
      else { CrashKeeps(p, d0, h[i - 1], h[i]); }
    }
  }

  /**
    At every moment of every history, whatever a crash there leaves on disk: the restored copy (or absence) is
    never beside a live sidecar; a restored file is the whole copy; the state file is missing only if nothing
    has been touched or the restore is complete; and no other file has appeared or changed, or gone unless the
    sweep's filter matches its name.
  */
  lemma NoCrashLeavesAHalfRestore(p: Point, d0: Dir, h: seq<State>, i: nat, c: State)
    requires IsHistory(p, d0, h) && i < |h| && Crash(h[i], c)
    ensures
      var d, rp := c.db[0], c.rp[0];
      && (Installed(p, d) ==> NoSidecars(d))
      && (!p.absent && Installed(p, d) ==> d[Base] == File(p.copy, true, true))
      && (StateFile !in rp ==> d == d0 || Complete(p, d))
      && SameForeign(p.base, d0, d)
  {
    HistoryKeeps(p, d0, h, i);
    CrashKeeps(p, d0, h[i], c);
    assert SameForeign(p.base, d0, c.db[0]);
  }

  /** When an attempt returns, the restore is complete and durable, whatever happened before it. */
  lemma ReturnIsComplete(p: Point, d0: Dir, h: seq<State>, i: nat)
    requires IsHistory(p, d0, h) && i + 1 < |h| && h[i].pc.SyncDone? && Step(p, h[i], h[i + 1])
    ensures |h[i + 1].db| == 1 && Complete(p, h[i + 1].db[0])
    ensures |h[i + 1].rp| == 1 && StateFile !in h[i + 1].rp[0]
    ensures forall n: Name :: n.Foreign? ==> (n in h[i + 1].db[0] <==> n in d0 && !Matches(p.base, n.name))
  {
    HistoryKeeps(p, d0, h, i);
    HistoryKeeps(p, d0, h, i + 1);
    OthersExactly(p, d0, h[i + 1].db[0]);
  }

  lemma OthersExactly(p: Point, d0: Dir, d: Dir)
    requires Complete(p, d) && SameForeign(p.base, d0, d)
    ensures forall n: Name :: n.Foreign? ==> (n in d <==> n in d0 && !Matches(p.base, n.name))
  {
    forall n: Name | n.Foreign? && n in d ensures !Matches(p.base, n.name) {
      assert n !in Leftovers(p.base, d);
    }
  }

  lemma {:induction false} ContainsAt(name: string, part: string, i: nat)
    requires i <= |name| && part <= name[i..]
    ensures Contains(name, part)
  {
    if i > 0 {
      assert name[1..][i - 1..] == name[i..];
      ContainsAt(name[1..], part, i - 1);
    }
  }

  /** So it takes with it what an unfinished restore set aside for a sibling database, one whose name goes on from this. */
  lemma ASiblingIsSwept(base: string, more: string, suffix: string, token: string)
    ensures Matches(base, "." + (base + more) + suffix + ".quarantine-" + token)
  {
    var name, i := "." + (base + more) + suffix + ".quarantine-" + token, 1 + |base + more| + |suffix|;
    assert name[i..] == ".quarantine-" + token;
    ContainsAt(name, ".quarantine-", i);
    assert "." + base == name[..1 + |base|];
  }

  // ----- the sidecars set aside -----

  /** The file is there, as it is, in every state a crash could mix. */
  ghost predicate Holds(h: seq<Dir>, n: Name, f: File) {
    forall i :: 0 <= i < |h| ==> n in h[i] && h[i][n] == f
  }

  /** Not a call of the final sweep. */
  ghost predicate NoSweep(p: Point, s: State, s': State) {
    Interrupted(s, s') || (Step(p, s, s') && !s.pc.Sweep?)
  }

  /** The file set aside is there, and there is no sidecar left to set aside. */
  ghost predicate Kept(h: seq<Dir>, n: Name, f: File) {
    h != [] && Holds(h, n, f) && AllClear(h)
  }

  lemma QuarantineKept(p: Point, s: State, s': State, n: Name, f: File)
    requires n.Quarantine? && f.synced && Kept(s.db, n, f) && NoSweep(p, s, s')
    ensures Kept(s'.db, n, f)
  {
    if Crash(s, s') { QuarantineSurvives(s.db, s'.db[0], n, f); }
  }

  lemma QuarantineSurvives(h: seq<Dir>, d: Dir, n: Name, f: File)
    requires f.synced && Kept(h, n, f) && DirSurvives(h, d)
    ensures n in d && d[n] == f && NoSidecars(d)
  {
    if n in d {
      var i :| 0 <= i < |h| && n in h[i] && FileSurvives(h[i][n], d[n]);
    }
  }

  lemma AsideSynced(p: Point, d0: Dir, h: seq<State>, i: nat)
    requires IsHistory(p, d0, h) && i + 1 < |h| && h[i].pc.SyncAside? && Step(p, h[i], h[i + 1])
    ensures h[i].db != [] && h[i + 1].db == [Last(h[i].db)] && AllClear(h[i + 1].db)
  {
    HistoryKeeps(p, d0, h, i);
  }

  lemma {:induction false} KeptOn(p: Point, h: seq<State>, i: nat, j: nat, n: Name, f: File)
    requires i <= j < |h| && (forall k :: i <= k < j ==> NoSweep(p, h[k], h[k + 1]))
    requires n.Quarantine? && f.synced && Kept(h[i].db, n, f)
    ensures Kept(h[j].db, n, f)
    decreases j - i
  {
    if i < j {
      QuarantineKept(p, h[i], h[i + 1], n, f);
      KeptOn(p, h, i + 1, j, n, f);
    }
  }

  /**
    Once the directory is synced, a file set aside survives every crash and every death of the process, through any
    further attempts, until an attempt sweeps it.
  */
  lemma WhatWasSetAsideSurvives(p: Point, d0: Dir, h: seq<State>, i: nat, j: nat, n: Name)
    requires IsHistory(p, d0, h) && i < j < |h| && h[i].pc.SyncAside? && Step(p, h[i], h[i + 1])
    requires n.Quarantine? && n in Last(h[i].db) && Last(h[i].db)[n].synced
    requires forall k :: i < k < j ==> NoSweep(p, h[k], h[k + 1])
    ensures Kept(h[j].db, n, Last(h[i].db)[n])
  {
    AsideSynced(p, d0, h, i);
    KeptOn(p, h, i + 1, j, n, Last(h[i].db)[n]);
  }

  /** And an attempt sweeps only once what it restores is installed in every state a crash could leave. */
  lemma SweepsOnlyOnceInstalled(p: Point, d0: Dir, h: seq<State>, k: nat)
    requires IsHistory(p, d0, h) && k < |h| && h[k].pc.Sweep?
    ensures forall i :: 0 <= i < |h[k].db| ==> Installed(p, h[k].db[i]) && NoSidecars(h[k].db[i])
  {
    HistoryKeeps(p, d0, h, k);
  }
}
