/** What the containment's exit status says of its run (ops/staging/contain.py:120-169): the signals, the command and the cleanup. */
module ContainLaws {
  import opened Common
  import opened Contain

  /** The run's last event finds the program still listening for signals: before its cleanup, and not over. */
  predicate Listening(m: Program) {
    !m.pc.Over? && !m.pc.Cleaning? && !m.pc.Reporting?
  }

  /** What a signal is recorded as: its number, or 0 once its handler only records that one came. */
  function HeardAs(m: Program, n: Sig): nat {
    match n
    case Term => if m.switched >= 1 then 0 else 15
    case Int => if m.switched >= 2 then 0 else 2
    case Hup => if m.switched >= 3 then 0 else 1
  }

  /** The first signal the program heard. */
  function FirstHeard(events: seq<Event>): Option<nat> {
    if events == [] then None
    else
      var n := |events| - 1;
      var before, e := FirstHeard(events[..n]), events[n];
      if before.Some? then before
      else if e.Signals? && e.ns != [] && Listening(Main(events[..n])) then Some(HeardAs(Main(events[..n]), e.ns[0]))
      else None
  }

  /** The status the command was reaped with; 1 when there was nothing to reap. */
  function Reaped(events: seq<Event>): Option<int> {
    if events == [] then None
    else
      var n := |events| - 1;
      match events[n]
      case ChildExits(code) => if Main(events[..n]).pc.Waiting? then Some(code) else Reaped(events[..n])
      case NoChild => if Main(events[..n]).pc.Waiting? then Some(1) else Reaped(events[..n])
      case _ => Reaped(events[..n])
  }

  /** What the cleanup found, when it ended. */
  function FoundGone(events: seq<Event>): Option<bool> {
    if events == [] then None
    else
      var n := |events| - 1;
      match events[n]
      case Finish(found) => if Main(events[..n]).pc.Cleaning? then Some(found) else FoundGone(events[..n])
      case _ => FoundGone(events[..n])
  }

  ghost predicate Tells(m: Program, heard: Option<nat>, reaped: Option<int>, found: Option<bool>) {
    && First(m.aborted) == heard && m.status == reaped
    && (m.pc.Reporting? ==> found == Some(false))
    && (m.pc.Over? && m.pc.ending.Cleaned? ==>
          found == Some(m.pc.ending.gone) && m.pc.ending == Ended(m, m.pc.ending.gone))
  }

  lemma HeardNext(m: Program, ns: seq<Sig>)
    ensures First(m.aborted + Recorded(m, ns)) ==
      if First(m.aborted).Some? then First(m.aborted) else if ns != [] then Some(HeardAs(m, ns[0])) else None
  {
    if ns != [] { assert Recorded(m, ns)[0] == if Place(ns[0]) < m.switched then 0 else Number(ns[0]); }
  }

  lemma NextTells(m: Program, e: Event, heard: Option<nat>, reaped: Option<int>, found: Option<bool>)
    requires Tells(m, heard, reaped, found)
    ensures Tells(Next(m, e),
      if heard.Some? then heard else if e.Signals? && e.ns != [] && Listening(m) then Some(HeardAs(m, e.ns[0])) else None,
      if m.pc.Waiting? && e.ChildExits? then Some(e.code) else if m.pc.Waiting? && e.NoChild? then Some(1) else reaped,
      if m.pc.Cleaning? && e.Finish? then Some(e.found) else found)
  {
    if e.Signals? { HeardNext(m, e.ns); }
  }

  lemma {:induction false} ItTells(events: seq<Event>)
    ensures Tells(Main(events), FirstHeard(events), Reaped(events), FoundGone(events))
  {
    if events != [] {
      var n := |events| - 1;
      ItTells(events[..n]);
      NextTells(Main(events[..n]), events[n], FirstHeard(events[..n]), Reaped(events[..n]), FoundGone(events[..n]));
    }
  }

  /**
    The exit status: 1 for an exception; 125 when the cleanup found something left; else 128 and the first signal heard;
    else the command's own, or 128 and the signal that killed it.
  */
  lemma TheStatusSaysWhatHappened(events: seq<Event>)
    requires Main(events).pc.Over?
    ensures
      var e := Main(events).pc.ending;
      var status := ExitStatus(e);
      && (e.Escaped? ==> status == 1)
      && (e.Cleaned? ==>
            && FoundGone(events).Some?
            && status == (if !FoundGone(events).value then 125
                          else match (FirstHeard(events), Reaped(events))
                               case (Some(n), _) => 128 + n
                               case (None, Some(code)) => if code < 0 then 128 + (0 - code) else code
                               case (None, None) => 0))
  {
    ItTells(events);
  }

  // ----- with no signal and nothing that fails -----

  /** A program that hears no signal and is refused nothing waits for its command, and cleans up when it has its status. */
  predicate Undisturbed(m: Program) {
    && m.aborted == []
    && (m.pc in {Ready, Spawning, Spawned, Testing, Waiting} ==> m.switched == 0)
    && (m.pc in {Entering, Quieting, Cleaning, Reporting} ==> m.started && m.status.Some?)
    && (m.pc in {Spawned, Testing, Waiting} ==> m.started)
    && (m.pc.Waiting? ==> m.status.None?)
    && !m.pc.Continuing?
    && (m.pc.Over? ==> m.started && m.status.Some? && m.pc.ending.Cleaned?)
  }

  lemma {:induction false} UndisturbedThroughout(events: seq<Event>)
    requires forall i :: 0 <= i < |events| ==> !events[i].Signals? && !events[i].Fails?
    ensures Undisturbed(Main(events))
  {
    if events != [] { UndisturbedThroughout(events[..|events| - 1]); }
  }

  /** Such a run ends, if it does, with its command started, reaped and cleaned up after: its status is the command's or 125. */
  lemma AnUndisturbedRunWaits(events: seq<Event>)
    requires forall i :: 0 <= i < |events| ==> !events[i].Signals? && !events[i].Fails?
    requires Main(events).pc.Over?
    ensures Main(events).started && Reaped(events).Some? && FoundGone(events).Some?
    ensures
      var code := Reaped(events).value;
      ExitStatus(Main(events).pc.ending) == if !FoundGone(events).value then 125 else if code < 0 then 128 + (0 - code) else code
  {
    UndisturbedThroughout(events);
    ItTells(events);
  }
}
