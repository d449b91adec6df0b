/**
  A 'closed' key shared by any number of processes (web/lib/rate-limit.ts:77-130): a call the store cannot answer
  is refused, and a refund gives back a counted call of the window it names.
*/
module RateLimitShared {
  import opened Common
  import opened RateLimitSpec

  type Process = nat

  datatype Shared = Shared(row: Option<Row>, buckets: map<Process, Bucket>, now: int)

  /** A call of a process, a refund, or a sweep of dead rows. Each names the time its process read. */
  datatype Event =
    | Try(p: Process, at: int, reply: Reply)
    | GiveBack(at: int, named: Option<int>)
    | Sweep(at: int)

  function BucketOf(s: Shared, p: Process): Option<Bucket> {
    if p in s.buckets then Some(s.buckets[p]) else None
  }

  function Outcomes(l: Limits, s: Shared, e: Event): Outcome
    requires e.Try?
  {
    Call(FailClosed, l, s.row, BucketOf(s, e.p), e.at, e.reply)
  }

  function Next(l: Limits, s: Shared, e: Event): Shared {
    match e
    case Try(p, at, _) =>
      var o := Outcomes(l, s, e);
      Shared(o.row, if o.bucket.Some? then s.buckets[p := o.bucket.value] else s.buckets, at)
    case GiveBack(at, named) => Shared(Refund(s.row, at, named).0, s.buckets, at)
    case Sweep(at) => Shared(if RowLive(s.row, at) then s.row else None, s.buckets, at)
  }

  ghost predicate Run(l: Limits, states: seq<Shared>, events: seq<Event>) {
    && |states| == |events| + 1
    && states[0].row.None? && states[0].buckets == map[]
    && forall i :: 0 <= i < |events| ==> states[i].now <= events[i].at && states[i + 1] == Next(l, states[i], events[i])
  }

  /** The call was allowed, and counted in the store window ending at `w`. */
  predicate AllowedIn(l: Limits, s: Shared, e: Event, w: int) {
    e.Try? && Outcomes(l, s, e).answer.ok && Outcomes(l, s, e).answer.resetAt == Some(w)
  }

  /** The refund went through, in the store window ending at `w`. */
  predicate RefundedIn(s: Shared, e: Event, w: int) {
    e.GiveBack? && Refund(s.row, e.at, e.named).1 && s.row.value.resetAt == w
  }

  /** Allowed calls less refunds of one store window, over the first n events. */
  function Balance(l: Limits, states: seq<Shared>, events: seq<Event>, w: int, n: nat): int
    requires |states| == |events| + 1 && n <= |events|
  {
    if n == 0 then 0
    else Balance(l, states, events, w, n - 1)
         + (if AllowedIn(l, states[n - 1], events[n - 1], w) then 1 else 0)
         - (if RefundedIn(states[n - 1], events[n - 1], w) then 1 else 0)
  }

  /** No process ever counts a call of its own. */
  ghost predicate NothingOffline(s: Shared) {
    forall p :: p in s.buckets ==> s.buckets[p].offline == 0
  }

  /** What a window's balance is at most: its count while it is the store's row, and 0 for a window yet to come. */
  ghost predicate Bounded(l: Limits, s: Shared, w: int, balance: int) {
    && balance <= l.limit
    && (s.row.Some? && s.row.value.resetAt == w ==> balance <= s.row.value.count)
    && (w > (if s.row.Some? then Max(s.row.value.resetAt, s.now) else s.now) ==> balance == 0)
  }

  lemma EventKeepsBounds(l: Limits, s: Shared, e: Event, w: int, balance: int)
    requires 0 < l.windowMs && NothingOffline(s) && Bounded(l, s, w, balance) && s.now <= e.at
    ensures NothingOffline(Next(l, s, e))
    ensures Bounded(l, Next(l, s, e), w,
      balance + (if AllowedIn(l, s, e, w) then 1 else 0) - (if RefundedIn(s, e, w) then 1 else 0))
  {
  }

  /** In every store window, whatever the processes and however often the store fails, calls allowed less refunds stay within the limit. */
  lemma {:induction false} EveryWindowHoldsTheLimit(l: Limits, states: seq<Shared>, events: seq<Event>, w: int, n: nat)
    requires 0 < l.windowMs && Run(l, states, events) && n <= |events|
    ensures Balance(l, states, events, w, n) <= l.limit
    ensures NothingOffline(states[n]) && Bounded(l, states[n], w, Balance(l, states, events, w, n))
  {
    if n > 0 {
      EveryWindowHoldsTheLimit(l, states, events, w, n - 1);
      EventKeepsBounds(l, states[n - 1], events[n - 1], w, Balance(l, states, events, w, n - 1));
    }
  }

  /** The calls allowed in one store window. */
  function AllowedCount(l: Limits, states: seq<Shared>, events: seq<Event>, w: int, n: nat): nat
    requires |states| == |events| + 1 && n <= |events|
  {
    if n == 0 then 0
    else AllowedCount(l, states, events, w, n - 1) + (if AllowedIn(l, states[n - 1], events[n - 1], w) then 1 else 0)
  }

  /** The refunds asked for that name a window, or none. */
  function Naming(events: seq<Event>, w: int, n: nat): nat
    requires n <= |events|
  {
    if n == 0 then 0
    else
      var e := events[n - 1];
      Naming(events, w, n - 1) + (if e.GiveBack? && (e.named.None? || e.named.value == w) then 1 else 0)
  }

  /** A window allows its limit, and one call more at most for each refund that names it or none: those of other windows do not reach it. */
  lemma OnlyItsRefundsReopenAWindow(l: Limits, states: seq<Shared>, events: seq<Event>, w: int, n: nat)
    requires 0 < l.windowMs && Run(l, states, events) && n <= |events|
    ensures AllowedCount(l, states, events, w, n) <= l.limit + Naming(events, w, n)
  {
    EveryWindowHoldsTheLimit(l, states, events, w, n);
    RefundsAreNaming(l, states, events, w, n);
  }

  lemma {:induction false} RefundsAreNaming(l: Limits, states: seq<Shared>, events: seq<Event>, w: int, n: nat)
    requires |states| == |events| + 1 && n <= |events|
    ensures AllowedCount(l, states, events, w, n) - Naming(events, w, n) <= Balance(l, states, events, w, n)
  {
    if n > 0 { RefundsAreNaming(l, states, events, w, n - 1); }
  }
}
