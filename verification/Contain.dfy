/**
  Containing a build's processes (ops/staging/contain.py:30-97, 120-169): the processes below this one, found in a
  listing of every process and its parent; the later look at each of them; and when an empty answer is final. A
  process id is used once; a listing is read at one moment, and each process is looked at in its own.
*/
module Contain {
  import opened Common

  type Pid = nat

  /** A process, and whether it has exited and waits to be reaped. */
  datatype Process = Process(parent: Pid, zombie: bool)

  type Snapshot = map<Pid, Process>

  /** Parents come before children: no process is above itself. */
  ghost predicate Forest(procs: Snapshot, depth: Pid -> nat) {
    forall p :: p in procs ==> depth(procs[p].parent) < depth(p)
  }

  /** A proper descendant of root: its parent is root, or is one. */
  ghost predicate Descends(procs: Snapshot, depth: Pid -> nat, root: Pid, p: Pid)
    requires Forest(procs, depth)
    decreases depth(p)
  {
    p in procs && (procs[p].parent == root || Descends(procs, depth, root, procs[p].parent))
  }

  function Children(procs: Snapshot, p: Pid): set<Pid> {
    set c | c in procs && procs[c].parent == p
  }

  ghost predicate NoneTwice(s: seq<Pid>) {
    forall i, j :: 0 <= i < j < |s| ==> s[i] != s[j]
  }

  /** What the walk has reached: its output and its worklist, which holds exactly the ones not yet opened. */
  ghost predicate Walked(procs: Snapshot, depth: Pid -> nat, root: Pid, out: seq<Pid>, todo: seq<Pid>)
    requires Forest(procs, depth)
  {
    && NoneTwice(out) && NoneTwice(todo) && root !in out
    && (forall p :: p in out ==> Descends(procs, depth, root, p))
    && (forall p :: p in todo ==> p in out || p == root)
    && (forall p :: p in out ==> (procs[p].parent == root || procs[p].parent in out) && procs[p].parent !in todo)
    && (forall p, c :: (p in out || p == root) && p !in todo && c in procs && procs[c].parent == p ==> c in out)
  }

  lemma {:induction false} NotItsOwn(procs: Snapshot, depth: Pid -> nat, root: Pid, p: Pid)
    requires Forest(procs, depth) && Descends(procs, depth, root, p)
    ensures depth(root) < depth(p)
    decreases depth(p)
  {
    if procs[p].parent != root { NotItsOwn(procs, depth, root, procs[p].parent); }
  }

  lemma BothNoneTwice(a: seq<Pid>, b: seq<Pid>)
    requires NoneTwice(a) && NoneTwice(b) && forall x :: x in b ==> x !in a
    ensures NoneTwice(a + b)
  {
    forall i, j | 0 <= i < j < |a + b| ensures (a + b)[i] != (a + b)[j] {
      if i < |a| <= j { assert b[j - |a|] in b && a[i] in a; }
    }
  }

  lemma TakeLast(s: seq<Pid>)
    requires s != [] && NoneTwice(s)
    ensures var rest, last := s[..|s| - 1], s[|s| - 1];
      s == rest + [last] && last !in rest && NoneTwice(rest)
  {
  }

  /** The children of an unopened process are new. */
  lemma ChildrenAreNew(procs: Snapshot, depth: Pid -> nat, root: Pid, out: seq<Pid>, todo: seq<Pid>, c: Pid)
    requires Forest(procs, depth) && Walked(procs, depth, root, out, todo) && todo != []
    requires c in Children(procs, todo[|todo| - 1])
    ensures c !in out && c !in todo && c != root && Descends(procs, depth, root, c)
  {
    var p := todo[|todo| - 1];
    if p != root { assert Descends(procs, depth, root, p); }
    assert Descends(procs, depth, root, c);
    NotItsOwn(procs, depth, root, c);
  }

  /** Opening one process: its children join the output and the worklist. */
  lemma OpenOne(procs: Snapshot, depth: Pid -> nat, root: Pid, out: seq<Pid>, todo: seq<Pid>, kids: seq<Pid>)
    requires Forest(procs, depth) && Walked(procs, depth, root, out, todo) && todo != []
    requires NoneTwice(kids) && forall c :: c in kids <==> c in Children(procs, todo[|todo| - 1])
    ensures Walked(procs, depth, root, out + kids, todo[..|todo| - 1] + kids)
  {
    var p, rest := todo[|todo| - 1], todo[..|todo| - 1];
    TakeLast(todo);
    forall c | c in kids
      ensures c !in out && c !in todo && c != root && Descends(procs, depth, root, c)
    {
      ChildrenAreNew(procs, depth, root, out, todo, c);
    }
    BothNoneTwice(out, kids);
    BothNoneTwice(rest, kids);
    forall q | q in out + kids
      ensures (procs[q].parent == root || procs[q].parent in out + kids) && procs[q].parent !in rest + kids
    {
      if q in kids { assert procs[q].parent == p; }
    }
  }

  /** When nothing is left to open, every descendant has been reached. */
  lemma {:induction false} AllReached(procs: Snapshot, depth: Pid -> nat, root: Pid, out: seq<Pid>, p: Pid)
    requires Forest(procs, depth) && Walked(procs, depth, root, out, []) && Descends(procs, depth, root, p)
    ensures p in out
    decreases depth(p)
  {
    if procs[p].parent != root { AllReached(procs, depth, root, out, procs[p].parent); }
  }

  /** The children of a process, in some order. */
  method ChildList(procs: Snapshot, p: Pid) returns (kids: seq<Pid>)
    ensures NoneTwice(kids) && forall c :: c in kids <==> c in Children(procs, p)
  {
    kids := [];
    var todo := Children(procs, p);
    while todo != {}
      invariant NoneTwice(kids) && forall c :: c in kids || c in todo <==> c in Children(procs, p)
      invariant forall c :: c in kids ==> c !in todo
      decreases |todo|
    {
      var c :| c in todo;
      BothNoneTwice(kids, [c]);
      kids := kids + [c];
      todo := todo - {c};
    }
  }

  lemma {:induction false} FitIn(s: seq<Pid>, all: set<Pid>)
    requires NoneTwice(s) && forall p :: p in s ==> p in all
    ensures |s| <= |all|
  {
    if s != [] {
      var rest, last := s[..|s| - 1], s[|s| - 1];
      assert last in s && forall i :: 0 <= i < |rest| ==> rest[i] == s[i] && s[i] != s[|s| - 1];
      assert forall p :: p in rest ==> p in s;
      FitIn(rest, all - {last});
    }
  }

  /** The walk: every proper descendant exactly once. */
  method Descendants(procs: Snapshot, ghost depth: Pid -> nat, root: Pid) returns (out: seq<Pid>)
    requires Forest(procs, depth)
    ensures NoneTwice(out) && forall p :: p in out <==> Descends(procs, depth, root, p)
  {
    out := [];
    var todo := [root];
    while todo != []
      invariant Walked(procs, depth, root, out, todo) && |out| <= |procs.Keys|
      decreases 2 * (|procs.Keys| - |out|) + |todo|
    {
      var p := todo[|todo| - 1];
      var kids := ChildList(procs, p);
      OpenOne(procs, depth, root, out, todo, kids);
      out, todo := out + kids, todo[..|todo| - 1] + kids;
      FitIn(out, procs.Keys);
    }
    forall p | Descends(procs, depth, root, p) ensures p in out { AllReached(procs, depth, root, out, p); }
  }

  // ----- the cleanup -----

  method Alive(procs: Snapshot, pids: seq<Pid>) returns (live: seq<Pid>)
    ensures forall p :: p in live <==> p in pids && p in procs && !procs[p].zombie
  {
    live := [];
    for i := 0 to |pids|
      invariant forall p :: p in live <==> p in pids[..i] && p in procs && !procs[p].zombie
    {
      if pids[i] in procs && !procs[pids[i]].zombie { live := live + [pids[i]]; }
    }
    assert pids[..|pids|] == pids;
  }

  /** What a check answers: none of the processes it listed was running when it looked at it. */
  ghost predicate FoundEmpty(list: Snapshot, look: Snapshot, depth: Pid -> nat, root: Pid)
    requires Forest(list, depth)
  {
    forall p :: Descends(list, depth, root, p) ==> p !in look || look[p].zombie
  }

  /**
    The rounds of TERM and then of KILL. Each check lists the tree and then looks at each process listed: two
    reads, `list(i)` and `look(i)`. It says the tree is gone on the first check that finds nothing running, and
    gives up only after every check found something.
  */
  method ContainTree(list: nat -> Snapshot, look: nat -> Snapshot, ghost depth: Pid -> nat, root: Pid,
                     graceRounds: nat, killRounds: nat)
    returns (gone: bool, rounds: nat)
    requires forall i :: 0 <= i < graceRounds + killRounds ==> Forest(list(i), depth)
    ensures gone ==> rounds < graceRounds + killRounds && FoundEmpty(list(rounds), look(rounds), depth, root)
    ensures !gone ==> rounds == graceRounds + killRounds
    ensures rounds <= graceRounds + killRounds && forall i :: 0 <= i < rounds ==> !FoundEmpty(list(i), look(i), depth, root)
  {
    rounds := 0;
    while rounds < graceRounds + killRounds
      invariant rounds <= graceRounds + killRounds
      invariant forall i :: 0 <= i < rounds ==> !FoundEmpty(list(i), look(i), depth, root)
    {
      var below := Descendants(list(rounds), depth, root);
      var live := Alive(look(rounds), below);
      if live == [] {
        assert forall p :: Descends(list(rounds), depth, root, p) ==> p !in live;
        return true, rounds;
      }
      assert live[0] in live;
      rounds := rounds + 1;
    }
    return false, rounds;
  }

  // ----- a subreaper's tree -----

  /**
    All processes; which of them the command started, itself or through others; and the next id. Ids are given in
    the order of birth.
  */
  datatype System = System(procs: Snapshot, started: set<Pid>, next: Pid)

  datatype Step =
    | StartCommand
    | Fork(p: Pid)
    | Exit(p: Pid, heir: Pid)
    | Reap(p: Pid)

  function Born(p: Pid): nat { p }

  /** A process still running. */
  predicate Live(s: System, p: Pid) { p in s.procs && !s.procs[p].zombie }

  /**
    An exit leaves its children to a living subreaper above it: the nearest one, so never one above root for a
    process below root.
  */
  ghost predicate Enabled(s: System, root: Pid, step: Step)
    requires Forest(s.procs, Born)
  {
    match step
    case StartCommand => Live(s, root)
    case Fork(p) => Live(s, p) && p != root
    case Exit(p, heir) => Live(s, p) && p != root && heir != p && Live(s, heir) && heir < p
                          && (Descends(s.procs, Born, root, p) ==> heir == root || Descends(s.procs, Born, root, heir))
                          && (!Descends(s.procs, Born, root, p) ==> heir != root && !Descends(s.procs, Born, root, heir))
    case Reap(p) => p in s.procs && s.procs[p].zombie && p != root && forall q :: q in s.procs ==> s.procs[q].parent != p
  }

  function Give(procs: Snapshot, p: Pid, heir: Pid): Snapshot {
    map q | q in procs :: if procs[q].parent == p then procs[q].(parent := heir) else procs[q]
  }

  function Apply(s: System, root: Pid, step: Step): System {
    match step
    case StartCommand => System(s.procs[s.next := Process(root, false)], s.started + {s.next}, s.next + 1)
    case Fork(p) =>
      System(s.procs[s.next := Process(p, false)], if p in s.started then s.started + {s.next} else s.started, s.next + 1)
    case Exit(p, heir) =>
      if p in s.procs then s.(procs := Give(s.procs, p, heir)[p := Give(s.procs, p, heir)[p].(zombie := true)]) else s
    case Reap(p) => s.(procs := s.procs - {p})
  }

  /** The processes below root are exactly those the command started that are not yet reaped. */
  ghost predicate Contained(s: System, root: Pid) {
    && Forest(s.procs, Born) && Live(s, root) && root !in s.started
    && (forall p :: p in s.procs ==> p < s.next) && (forall p :: p in s.started ==> p < s.next)
    && (forall p :: p in s.procs ==> (p in s.started <==> s.procs[p].parent == root || s.procs[p].parent in s.started))
    && (forall p :: p in s.started && p in s.procs && s.procs[p].parent != root ==> s.procs[p].parent in s.procs)
  }

  lemma {:induction false} StartedDescend(s: System, root: Pid, p: Pid)
    requires Contained(s, root) && p in s.procs
    ensures p in s.started <==> Descends(s.procs, Born, root, p)
    decreases p
  {
    var q := s.procs[p].parent;
    if q != root && q in s.procs { StartedDescend(s, root, q); }
  }

  lemma BirthContains(s: System, root: Pid, step: Step)
    requires Contained(s, root) && Enabled(s, root, step) && (step.StartCommand? || step.Fork?)
    ensures Contained(Apply(s, root, step), root)
  {
  }

  lemma ExitContains(s: System, root: Pid, step: Step)
    requires Contained(s, root) && Enabled(s, root, step) && step.Exit?
    ensures Contained(Apply(s, root, step), root)
  {
    StartedDescend(s, root, step.p);
    if step.heir != root { StartedDescend(s, root, step.heir); }
  }

  lemma ReapContains(s: System, root: Pid, step: Step)
    requires Contained(s, root) && Enabled(s, root, step) && step.Reap?
    ensures Contained(Apply(s, root, step), root)
  {
  }

  lemma StepContains(s: System, root: Pid, step: Step)
    requires Contained(s, root) && Enabled(s, root, step)
    ensures Contained(Apply(s, root, step), root)
  {
    match step
    case StartCommand => BirthContains(s, root, step);
    case Fork(_) => BirthContains(s, root, step);
    case Exit(_, _) => ExitContains(s, root, step);
    case Reap(_) => ReapContains(s, root, step);
  }

  ghost predicate History(states: seq<System>, steps: seq<Step>, root: Pid) {
    && |states| == |steps| + 1 && Contained(states[0], root)
    && forall i :: 0 <= i < |steps| ==> Goes(states, steps, root, i)
  }

  ghost predicate Goes(states: seq<System>, steps: seq<Step>, root: Pid, i: nat)
    requires |states| == |steps| + 1 && i < |steps|
  {
    Forest(states[i].procs, Born) && Enabled(states[i], root, steps[i]) && states[i + 1] == Apply(states[i], root, steps[i])
  }

  /** Whatever session or group it moves to and whichever of its parents exit, nothing the command started leaves the tree. */
  lemma {:induction false} NothingEscapes(states: seq<System>, steps: seq<Step>, root: Pid, n: nat)
    requires History(states, steps, root) && n < |states|
    ensures Contained(states[n], root)
    ensures forall p :: p in states[n].procs ==> (p in states[n].started <==> Descends(states[n].procs, Born, root, p))
  {
    if n > 0 {
      NothingEscapes(states, steps, root, n - 1);
      assert Goes(states, steps, root, n - 1);
      StepContains(states[n - 1], root, steps[n - 1]);
    }
    forall p | p in states[n].procs ensures p in states[n].started <==> Descends(states[n].procs, Born, root, p) {
      StartedDescend(states[n], root, p);
    }
  }

  ghost predicate AllDead(s: System) {
    forall p :: p in s.started && p in s.procs ==> s.procs[p].zombie
  }

  lemma TheDeadStartNothing(s: System, root: Pid, step: Step)
    requires Contained(s, root) && Enabled(s, root, step) && !step.StartCommand? && AllDead(s)
    ensures AllDead(Apply(s, root, step))
  {
  }

  lemma {:induction false} DeathIsFinal(states: seq<System>, steps: seq<Step>, root: Pid, i: nat, j: nat)
    requires History(states, steps, root) && i <= j < |states| && AllDead(states[i])
    requires forall k :: i <= k < |steps| ==> !steps[k].StartCommand?
    ensures AllDead(states[j])
    decreases j
  {
    if i < j {
      DeathIsFinal(states, steps, root, i, j - 1);
      NothingEscapes(states, steps, root, j - 1);
      assert Goes(states, steps, root, j - 1);
      TheDeadStartNothing(states[j - 1], root, steps[j - 1]);
    }
  }

  // ----- a check, read while the tree goes on changing -----

  /** Each process listed in states[i] is looked at in some state from that one to states[j]. */
  ghost predicate LooksDuring(states: seq<System>, root: Pid, i: nat, j: nat, look: Snapshot)
    requires i <= j < |states| && Forest(states[i].procs, Born)
  {
    forall p :: Descends(states[i].procs, Born, root, p) ==> exists k :: i <= k <= j && SameLook(states[k], p, look)
  }

  predicate SameLook(s: System, p: Pid, look: Snapshot) {
    (p in look <==> p in s.procs) && (p in look ==> look[p] == s.procs[p])
  }

  /** A process that has exited never runs again. */
  lemma {:induction false} TheDeadStayDead(states: seq<System>, steps: seq<Step>, root: Pid, p: Pid, i: nat, j: nat)
    requires History(states, steps, root) && i <= j < |states| && p < states[i].next && !Live(states[i], p)
    ensures p < states[j].next && !Live(states[j], p)
    decreases j
  {
    if i < j {
      TheDeadStayDead(states, steps, root, p, i, j - 1);
      assert Goes(states, steps, root, j - 1);
    }
  }

  /** So when a check has found nothing, everything it could have listed has exited. */
  lemma ListedHaveExited(states: seq<System>, steps: seq<Step>, root: Pid, i: nat, j: nat, look: Snapshot, p: Pid)
    requires History(states, steps, root) && i <= j < |states| && Forest(states[i].procs, Born)
    requires LooksDuring(states, root, i, j, look) && FoundEmpty(states[i].procs, look, Born, root)
    requires p in states[i].started
    ensures !Live(states[j], p)
  {
    NothingEscapes(states, steps, root, i);
    if p in states[i].procs {
      var k :| i <= k <= j && SameLook(states[k], p, look);
      NextGrows(states, steps, root, i, k);
      TheDeadStayDead(states, steps, root, p, k, j);
    } else {
      TheDeadStayDead(states, steps, root, p, i, j);
    }
  }

  lemma {:induction false} NextGrows(states: seq<System>, steps: seq<Step>, root: Pid, i: nat, j: nat)
    requires History(states, steps, root) && i <= j < |states|
    ensures states[i].next <= states[j].next && states[i].started <= states[j].started
    decreases j
  {
    if i < j {
      NextGrows(states, steps, root, i, j - 1);
      assert Goes(states, steps, root, j - 1);
    }
  }

  /** Something the command started since states[i] listed the tree is running in states[j]. */
  ghost predicate BornUnlisted(states: seq<System>, i: nat, j: nat)
    requires i <= j < |states|
  {
    exists p :: p in states[j].started && p !in states[i].started && Live(states[j], p)
  }

  /**
    A check that found nothing means nothing the command started ever runs again, if and only if nothing born
    after its listing was still running when its look ended.
  */
  lemma AnEmptyCheckIsFinalExactly(states: seq<System>, steps: seq<Step>, root: Pid, i: nat, j: nat, look: Snapshot)
    requires History(states, steps, root) && i <= j < |states| && Forest(states[i].procs, Born)
    requires LooksDuring(states, root, i, j, look) && FoundEmpty(states[i].procs, look, Born, root)
    requires forall k :: j <= k < |steps| ==> !steps[k].StartCommand?
    ensures (forall k :: j <= k < |states| ==> AllDead(states[k])) <==> !BornUnlisted(states, i, j)
  {
    if !BornUnlisted(states, i, j) {
      forall p | p in states[j].started && p in states[j].procs ensures states[j].procs[p].zombie {
        if p in states[i].started { ListedHaveExited(states, steps, root, i, j, look, p); }
      }
      forall k | j <= k < |states| ensures AllDead(states[k]) { DeathIsFinal(states, steps, root, j, k); }
    } else {
      var p :| p in states[j].started && p !in states[i].started && Live(states[j], p);
      assert !AllDead(states[j]);
    }
  }

  /** It is enough that no process of the tree forks between the two reads. */
  lemma {:induction false} NoForkNoneUnlisted(states: seq<System>, steps: seq<Step>, root: Pid, i: nat, j: nat)
    requires History(states, steps, root) && i <= j < |states|
    requires forall k :: i <= k < j ==> !steps[k].StartCommand? && (steps[k].Fork? ==> steps[k].p !in states[k].started)
    ensures states[j].started == states[i].started && !BornUnlisted(states, i, j)
    decreases j
  {
    if i < j {
      NoForkNoneUnlisted(states, steps, root, i, j - 1);
      assert Goes(states, steps, root, j - 1);
    }
  }

  // The command is listed alone; it forks a child, and exits before it is looked at.
  const LISTED := System(map[1 := Process(0, false), 2 := Process(1, false)], {2}, 3)
  const FORKED := System(map[1 := Process(0, false), 2 := Process(1, false), 3 := Process(2, false)], {2, 3}, 4)
  const LOOKED := System(map[1 := Process(0, false), 2 := Process(1, true), 3 := Process(1, false)], {2, 3}, 4)

  lemma ItForks()
    ensures Contained(LISTED, 1) && Enabled(LISTED, 1, Fork(2)) && Apply(LISTED, 1, Fork(2)) == FORKED
  {
  }

  lemma ItExits()
    ensures Forest(FORKED.procs, Born) && Enabled(FORKED, 1, Exit(2, 1)) && Apply(FORKED, 1, Exit(2, 1)) == LOOKED
  {
    assert Descends(FORKED.procs, Born, 1, 2);
  }

  lemma ThatHappens()
    ensures History([LISTED, FORKED, LOOKED], [Fork(2), Exit(2, 1)], 1)
  {
    ItForks();
    ItExits();
    assert Goes([LISTED, FORKED, LOOKED], [Fork(2), Exit(2, 1)], 1, 0);
    assert Goes([LISTED, FORKED, LOOKED], [Fork(2), Exit(2, 1)], 1, 1);
  }

  /** The check finds nothing, and the child runs on. */
  lemma AForkBetweenTheReadsEscapes()
    ensures
      var states := [LISTED, FORKED, LOOKED];
      && History(states, [Fork(2), Exit(2, 1)], 1)
      && LooksDuring(states, 1, 0, 2, LOOKED.procs) && FoundEmpty(LISTED.procs, LOOKED.procs, Born, 1)
      && BornUnlisted(states, 0, 2) && Live(states[2], 3)
  {
    ThatHappens();
    var states := [LISTED, FORKED, LOOKED];
    assert SameLook(states[2], 2, LOOKED.procs);
    assert 3 in states[2].started && 3 !in states[0].started && Live(states[2], 3);
  }

  /** Round r lists states[from(r)] and looks at each process listed by states[to(r)]. */
  ghost predicate ReadDuring(states: seq<System>, root: Pid, list: nat -> Snapshot, look: nat -> Snapshot,
                             from: nat -> nat, upTo: nat -> nat, r: nat) {
    && from(r) <= upTo(r) < |states| && list(r) == states[from(r)].procs
    && Forest(states[from(r)].procs, Born) && LooksDuring(states, root, from(r), upTo(r), look(r))
  }

  /** The cleanup, on the system as it changes: when it reports success, that is final under exactly that condition. */
  method CleanUp(list: nat -> Snapshot, look: nat -> Snapshot, root: Pid, graceRounds: nat, killRounds: nat,
                 ghost states: seq<System>, ghost steps: seq<Step>, ghost from: nat -> nat, ghost upTo: nat -> nat)
    returns (gone: bool, rounds: nat)
    requires History(states, steps, root) && forall k :: 0 <= k < |steps| ==> !steps[k].StartCommand?
    requires forall r :: 0 <= r < graceRounds + killRounds ==> ReadDuring(states, root, list, look, from, upTo, r)
    ensures gone ==> rounds < graceRounds + killRounds && ReadDuring(states, root, list, look, from, upTo, rounds)
    ensures gone ==>
      ((forall k :: upTo(rounds) <= k < |states| ==> AllDead(states[k])) <==> !BornUnlisted(states, from(rounds), upTo(rounds)))
  {
    forall r | 0 <= r < graceRounds + killRounds ensures Forest(list(r), Born) {
      assert ReadDuring(states, root, list, look, from, upTo, r);
    }
    gone, rounds := ContainTree(list, look, Born, root, graceRounds, killRounds);
    if gone { TheLastCheck(states, steps, root, list, look, from, upTo, rounds); }
  }

  lemma TheLastCheck(states: seq<System>, steps: seq<Step>, root: Pid, list: nat -> Snapshot, look: nat -> Snapshot,
                     from: nat -> nat, upTo: nat -> nat, r: nat)
    requires History(states, steps, root) && forall k :: 0 <= k < |steps| ==> !steps[k].StartCommand?
    requires ReadDuring(states, root, list, look, from, upTo, r) && FoundEmpty(list(r), look(r), Born, root)
    ensures (forall k :: upTo(r) <= k < |states| ==> AllDead(states[k])) <==> !BornUnlisted(states, from(r), upTo(r))
  {
    AnEmptyCheckIsFinalExactly(states, steps, root, from(r), upTo(r), look(r));
  }

  // ----- the program around it -----

  /**
    Where the program is, once its handlers raise. An exception is caught where the source has a try around it: the
    spawn, the wait, and each pass of the loop that switches the handlers. The except clauses are around none of them.
  */
  datatype Pc =
    | Ready                    // before the first try
    | Spawning                 // in it
    | Spawned | Testing        // after it, and around the second
    | Waiting                  // in the second
    | Entering                 // after an except clause or the loop, up to quiet's first try
    | Quieting                 // in a try of quiet's loop
    | Continuing               // in its except clause
    | Cleaning                 // every handler switched, signals blocked
    | Reporting                // telling what survived
    | Over(ending: Ending)

  /** How the program ends: by an exception, or after the cleanup, with what it found. */
  datatype Ending = Escaped | Cleaned(gone: bool, signal: Option<nat>, status: int)

  datatype Sig = Term | Int | Hup

  function Number(n: Sig): nat {
    match n
    case Term => 15
    case Int => 2
    case Hup => 1
  }

  /** The order in which quiet switches the handlers, from raising to recording. */
  function Place(n: Sig): nat {
    match n
    case Term => 0
    case Int => 1
    case Hup => 2
  }

  /** `started` is whether the command was ever started; `switched` how many handlers have been switched. */
  datatype Program = Program(pc: Pc, started: bool, aborted: seq<nat>, switched: nat, status: Option<int>)

  /**
    What happens next: signals recorded at one point, each handler running inside the one before; the command starts;
    it exits, or there is none to wait for; a call of the system fails with an error nothing here catches; the
    cleanup finds the tree gone or not; or the program just goes on.
  */
  datatype Event = Signals(ns: seq<Sig>) | Starts | ChildExits(code: int) | NoChild | Fails | Finish(found: bool) | Proceed

  const START := Program(Ready, false, [], 0, None)

  function First(aborted: seq<nat>): Option<nat> {
    if aborted == [] then None else Some(aborted[0])
  }

  /** A switched handler records nothing but that a signal came. */
  function Recorded(m: Program, ns: seq<Sig>): seq<nat> {
    seq(|ns|, i requires 0 <= i < |ns| => if Place(ns[i]) < m.switched then 0 else Number(ns[i]))
  }

  /** One of the signals has a handler that still raises. */
  predicate Raising(m: Program, ns: seq<Sig>) {
    exists i :: 0 <= i < |ns| && m.switched <= Place(ns[i])
  }

  function Ended(m: Program, found: bool): Ending {
    Cleaned(found, First(m.aborted), if m.status.Some? then m.status.value else 0)
  }

  /** Outside every try, with a handler that may raise. */
  predicate Unguarded(pc: Pc) {
    pc in {Ready, Spawned, Testing, Entering, Continuing}
  }

  /** Where a caught exception leads. */
  function Caught(pc: Pc): Pc {
    match pc
    case Spawning => Entering
    case Waiting => Testing
    case Quieting => Continuing
    case _ => Over(Escaped)
  }

  /** A call the system may refuse: making the command, signalling another user's process, writing to a closed stream. */
  predicate MayFail(m: Program) {
    (m.pc.Spawning? && !m.started) || m.pc in {Cleaning, Reporting}
  }

  function Next(m: Program, e: Event): Program {
    if m.pc.Over? then m else
    match e
    case Signals(ns) =>
      if m.pc in {Cleaning, Reporting} then m else
      var m' := m.(aborted := m.aborted + Recorded(m, ns));
      if Raising(m, ns) then m'.(pc := Caught(m.pc)) else m'
    case Starts => if m.pc.Spawning? then m.(started := true) else m
    case ChildExits(code) => if m.pc.Waiting? then m.(pc := Testing, status := Some(code)) else m
    case NoChild => if m.pc.Waiting? then m.(pc := Testing, status := Some(1)) else m
    case Fails => if MayFail(m) then m.(pc := Over(Escaped)) else m
    case Finish(found) =>
      if !m.pc.Cleaning? then m else if found then m.(pc := Over(Ended(m, true))) else m.(pc := Reporting)
    case Proceed => Onward(m)
  }

  /** The next statement. */
  function Onward(m: Program): Program {
    match m.pc
    case Ready => m.(pc := Spawning)
    case Spawning => if m.started then m.(pc := Spawned) else m
    case Spawned => m.(pc := Testing)
    case Testing => m.(pc := if m.status.None? && m.aborted == [] then Waiting else Entering)
    case Entering => m.(pc := Quieting)
    case Quieting => if m.switched < 3 then m.(switched := m.switched + 1) else m.(pc := Cleaning)
    case Continuing => m.(pc := Quieting)
    case Reporting => m.(pc := Over(Ended(m, false)))
    case _ => m
  }

  function Main(events: seq<Event>): Program {
    if events == [] then START else Next(Main(events[..|events| - 1]), events[|events| - 1])
  }

  const BLOCKED := 125

  /** The exit status: the interpreter's own for an exception; 125 while something runs; else the signal's or the command's. */
  function ExitStatus(e: Ending): int {
    match e
    case Escaped => 1
    case Cleaned(gone, signal, status) =>
      if !gone then BLOCKED
      else if signal.Some? then 128 + signal.value
      else if status < 0 then 128 - status
      else status
  }

  /** Nothing catches the event: a signal that raises outside every try, or a call that fails. */
  predicate Uncaught(m: Program, e: Event) {
    (e.Signals? && Unguarded(m.pc) && Raising(m, e.ns)) || (e.Fails? && MayFail(m))
  }

  ghost predicate SomethingUncaught(events: seq<Event>) {
    exists k :: 0 <= k < |events| && Uncaught(Main(events[..k]), events[k])
  }

  lemma EndsAt(m: Program, e: Event)
    ensures Next(m, e).pc == Over(Escaped) <==> m.pc == Over(Escaped) || Uncaught(m, e)
  {
  }

  lemma OneMoreEvent(events: seq<Event>)
    requires events != []
    ensures
      var n := |events| - 1;
      SomethingUncaught(events) <==> SomethingUncaught(events[..n]) || Uncaught(Main(events[..n]), events[n])
  {
    var n := |events| - 1;
    assert forall k :: 0 <= k <= n ==> events[..n][..k] == events[..k];
    if SomethingUncaught(events[..n]) {
      var k :| 0 <= k < n && Uncaught(Main(events[..n][..k]), events[..n][k]);
      assert Uncaught(Main(events[..k]), events[k]);
    }
    if SomethingUncaught(events) {
      var k :| 0 <= k < |events| && Uncaught(Main(events[..k]), events[k]);
      if k < n { assert Uncaught(Main(events[..n][..k]), events[..n][k]); }
    }
  }

  /** The program ends by an exception exactly when something was not caught. */
  lemma {:induction false} OnlyTheUncaughtEscapes(events: seq<Event>)
    ensures Main(events).pc == Over(Escaped) <==> SomethingUncaught(events)
  {
    if events != [] {
      var n := |events| - 1;
      OnlyTheUncaughtEscapes(events[..n]);
      OneMoreEvent(events);
      EndsAt(Main(events[..n]), events[n]);
    }
  }

  /** Every handler is switched, and nothing has ended the cleanup early. */
  predicate CleansUp(m: Program) {
    m.switched == 3 && (m.pc in {Quieting, Cleaning, Reporting} || (m.pc.Over? && m.pc.ending.Cleaned?))
  }

  lemma CleanupGoesOn(m: Program, e: Event)
    requires CleansUp(m) && !e.Fails?
    ensures CleansUp(Next(m, e))
  {
    if e.Signals? {
      forall i | 0 <= i < |e.ns| ensures Place(e.ns[i]) < m.switched {}
    }
  }

  /** Once every handler is switched no signal raises: only a call that fails can end the cleanup before its result. */
  lemma {:induction false} NoSignalStopsTheCleanup(events: seq<Event>, more: seq<Event>)
    requires CleansUp(Main(events)) && forall i :: 0 <= i < |more| ==> !more[i].Fails?
    ensures CleansUp(Main(events + more))
    decreases |more|
  {
    if more == [] {
      assert events + more == events;
    } else {
      var n := |more| - 1;
      NoSignalStopsTheCleanup(events, more[..n]);
      assert (events + more)[..|events| + n] == events + more[..n];
      CleanupGoesOn(Main(events + more[..n]), more[n]);
    }
  }

  // ----- runs that end without the cleanup -----

  lemma One(events: seq<Event>, e: Event, m: Program, end: Program)
    requires Main(events) == m && Next(m, e) == end
    ensures Main(events + [e]) == end
  {
    assert (events + [e])[..|events|] == events;
  }

  lemma OneRaises(m: Program, n: Sig)
    requires m.switched <= Place(n)
    ensures Raising(m, [n]) && Recorded(m, [n]) == [Number(n)]
  {
    assert m.switched <= Place([n][0]);
  }

  const RUNNING := Program(Waiting, true, [], 0, None)
  const TO_WAIT := [Proceed] + [Starts] + [Proceed] + [Proceed] + [Proceed]

  lemma TheCommandRuns()
    ensures Main(TO_WAIT) == RUNNING
  {
    assert Main([]) == START && [] + [Proceed] == [Proceed];
    One([], Proceed, START, START.(pc := Spawning));
    One([Proceed], Starts, START.(pc := Spawning), START.(pc := Spawning, started := true));
    One([Proceed] + [Starts], Proceed, START.(pc := Spawning, started := true), RUNNING.(pc := Spawned));
    One([Proceed] + [Starts] + [Proceed], Proceed, RUNNING.(pc := Spawned), RUNNING.(pc := Testing));
    One([Proceed] + [Starts] + [Proceed] + [Proceed], Proceed, RUNNING.(pc := Testing), RUNNING);
  }

  /** The command has exited and its status is in hand when a signal lands: the status is 1 and nothing was cleaned up. */
  lemma ASignalBetweenTheTriesEscapes()
    ensures
      var m := Main(TO_WAIT + [ChildExits(0)] + [Signals([Term])]);
      m.pc == Over(Escaped) && ExitStatus(m.pc.ending) == 1 && m.status == Some(0)
  {
    TheCommandRuns();
    var exited := RUNNING.(pc := Testing, status := Some(0));
    One(TO_WAIT, ChildExits(0), RUNNING, exited);
    OneRaises(exited, Term);
    One(TO_WAIT + [ChildExits(0)], Signals([Term]), exited, exited.(pc := Over(Escaped), aborted := [15]));
  }

  const TO_QUIET := TO_WAIT + [Signals([Term])] + [Proceed] + [Proceed]

  lemma TheFirstSignalIsCaught()
    ensures Main(TO_QUIET) == RUNNING.(pc := Quieting, aborted := [15])
  {
    TheCommandRuns();
    OneRaises(RUNNING, Term);
    var m := RUNNING.(pc := Testing, aborted := [15]);
    assert [] + [15] == m.aborted;
    One(TO_WAIT, Signals([Term]), RUNNING, m);
    One(TO_WAIT + [Signals([Term])], Proceed, m, m.(pc := Entering));
    One(TO_WAIT + [Signals([Term])] + [Proceed], Proceed, m.(pc := Entering), m.(pc := Quieting));
  }

  /**
    The second signal is caught while handlers are being switched, and the third lands before the loop goes on: the
    status is 1, nothing was cleaned up, and the command still runs.
  */
  lemma ASignalInTheExceptClauseEscapes()
    ensures
      var m := Main(TO_QUIET + [Signals([Int])] + [Signals([Hup])]);
      m.pc == Over(Escaped) && ExitStatus(m.pc.ending) == 1 && m.started && m.status == None
  {
    TheFirstSignalIsCaught();
    var m := RUNNING.(pc := Quieting, aborted := [15]);
    OneRaises(m, Int);
    One(TO_QUIET, Signals([Int]), m, m.(pc := Continuing, aborted := [15, 2]));
    var m' := m.(pc := Continuing, aborted := [15, 2]);
    OneRaises(m', Hup);
    One(TO_QUIET + [Signals([Int])], Signals([Hup]), m', m'.(pc := Over(Escaped), aborted := [15, 2] + [1]));
  }

  /** A command that cannot be made: the status is 1, and there is nothing to clean up. */
  lemma ASpawnThatFailsEscapes()
    ensures
      var m := Main([Proceed] + [Fails]);
      m.pc == Over(Escaped) && ExitStatus(m.pc.ending) == 1 && !m.started
  {
    assert Main([]) == START && [] + [Proceed] == [Proceed];
    One([], Proceed, START, START.(pc := Spawning));
    One([Proceed], Fails, START.(pc := Spawning), START.(pc := Over(Escaped)));
  }

  /** A process of the tree that may not be signalled: the cleanup itself ends by the error, with status 1. */
  lemma ARefusedSignalEscapes()
    ensures
      var m := Main(TO_QUIET + [Proceed] + [Proceed] + [Proceed] + [Proceed] + [Fails]);
      m.pc == Over(Escaped) && ExitStatus(m.pc.ending) == 1 && m.started
  {
    TheFirstSignalIsCaught();
    var m := RUNNING.(pc := Quieting, aborted := [15]);
    One(TO_QUIET, Proceed, m, m.(switched := 1));
    One(TO_QUIET + [Proceed], Proceed, m.(switched := 1), m.(switched := 2));
    One(TO_QUIET + [Proceed] + [Proceed], Proceed, m.(switched := 2), m.(switched := 3));
    One(TO_QUIET + [Proceed] + [Proceed] + [Proceed], Proceed, m.(switched := 3), m.(switched := 3, pc := Cleaning));
    One(TO_QUIET + [Proceed] + [Proceed] + [Proceed] + [Proceed], Fails, m.(switched := 3, pc := Cleaning),
        m.(switched := 3, pc := Over(Escaped)));
  }

  // ----- what a status means -----

  /** A program that ended before the command started had nothing to clean up. */
  ghost predicate StartsMatch(states: seq<System>, j: nat, events: seq<Event>)
    requires j < |states|
  {
    !Main(events).started ==> states[j].started == {}
  }

  /**
    What any exit status but 125 means, for a cleanup whose last check listed states[i] and looked up to states[j]
    (a program that never came to it ends in states[j]). Nothing the command started runs then or ever after, if and
    only if everything was caught and nothing was born unlisted; or something was not, and the tree happened to be
    empty, as it is when the command was never started.
  */
  lemma AnyOtherStatusIsFinalExactly(states: seq<System>, steps: seq<Step>, root: Pid, events: seq<Event>, i: nat, j: nat,
                                     look: Snapshot)
    requires History(states, steps, root) && i <= j < |states| && Forest(states[i].procs, Born)
    requires forall k :: j <= k < |steps| ==> !steps[k].StartCommand?
    requires LooksDuring(states, root, i, j, look) && StartsMatch(states, j, events)
    requires Main(events).pc.Over? && ExitStatus(Main(events).pc.ending) != BLOCKED
    requires Main(events).pc.ending.Cleaned? && Main(events).pc.ending.gone ==> FoundEmpty(states[i].procs, look, Born, root)
    ensures (forall k :: j <= k < |states| ==> AllDead(states[k]))
       <==> if SomethingUncaught(events) then AllDead(states[j]) else !BornUnlisted(states, i, j)
    ensures !Main(events).started ==> forall k :: j <= k < |states| ==> AllDead(states[k])
  {
    OnlyTheUncaughtEscapes(events);
    if AllDead(states[j]) {
      forall k | j <= k < |states| ensures AllDead(states[k]) { DeathIsFinal(states, steps, root, j, k); }
    }
    if !SomethingUncaught(events) {
      AnEmptyCheckIsFinalExactly(states, steps, root, i, j, look);
    }
  }
}
