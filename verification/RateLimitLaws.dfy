/**
  What one call of the limiter answers and what a refund gives back (web/lib/rate-limit.ts:68-130), in counts and times.
*/
module RateLimitLaws {
  import opened Common
  import opened RateLimitSpec
  import opened RateLimitShared

  /** The window a row holds at a time: its calls so far and its end; or one that would begin now. */
  function CountedBy(row: Option<Row>, now: int): nat {
    if row.Some? && now < row.value.resetAt then row.value.count else 0
  }

  function EndsAt(row: Option<Row>, now: int, windowMs: nat): int {
    if row.Some? && now < row.value.resetAt then row.value.resetAt else now + windowMs
  }

  /** What a shadow has of a key at a time: the most it was told, the calls it counted itself, and its end. */
  function ToldBy(b: Option<Bucket>, now: int): nat {
    if b.Some? && now < b.value.resetAt then b.value.seen else 0
  }

  function OwnBy(b: Option<Bucket>, now: int): nat {
    if b.Some? && now < b.value.resetAt then b.value.offline else 0
  }

  /** Whole seconds, rounded up. */
  predicate SecondsUntil(n: int, ms: int) {
    1000 * n - 1000 < ms <= 1000 * n
  }

  // ----- one call -----

  /** The store counts a call it answers, and one whose reply is lost; never one that does not reach it. */
  lemma TheStoreCounts(p: Policy, l: Limits, row: Option<Row>, b: Option<Bucket>, now: int, reply: Reply)
    ensures Call(p, l, row, b, now, reply).row ==
      if reply == Down then row else Some(Row(CountedBy(row, now) + 1, EndsAt(row, now, l.windowMs)))
  {
  }

  /**
    An answered call is allowed exactly while the store's count and the process's own do not pass the limit; one that is
    not says in how many seconds the later of the two windows ends. The process remembers the most it was told.
  */
  lemma AnAnsweredCall(p: Policy, l: Limits, row: Option<Row>, b: Option<Bucket>, now: int)
    ensures
      var o := Call(p, l, row, b, now, Replied);
      var a := o.answer;
      var counted, end := CountedBy(row, now) + 1, EndsAt(row, now, l.windowMs);
      var last := if b.Some? && now < b.value.resetAt && end < b.value.resetAt then b.value.resetAt else end;
      && (a.ok <==> counted + OwnBy(b, now) <= l.limit)
      && !a.unavailable && a.resetAt == Some(end)
      && (a.ok ==> a.retryAfterS == 0)
      && (!a.ok ==> SecondsUntil(a.retryAfterS, last - now))
      && o.bucket == Some(Bucket(if ToldBy(b, now) < counted then counted else ToldBy(b, now), OwnBy(b, now), last))
  {
  }

  /**
    A call the store does not answer: a closed key refuses it, to be tried again in half a minute; any other is allowed
    exactly while what its process was told and has counted itself, this call with it, does not pass the limit.
  */
  lemma AnUnansweredCall(p: Policy, l: Limits, row: Option<Row>, b: Option<Bucket>, now: int, reply: Reply)
    requires reply != Replied
    ensures
      var o := Call(p, l, row, b, now, reply);
      var own := OwnBy(b, now) + 1;
      var end := if b.Some? && now < b.value.resetAt then b.value.resetAt else now + l.windowMs;
      && (p == FailClosed ==> o.answer == Answer(false, 30, true, None) && o.bucket == b)
      && (p == OwnLimit ==>
            && o.bucket == Some(Bucket(ToldBy(b, now), own, end))
            && (o.answer.ok <==> ToldBy(b, now) + own <= l.limit)
            && !o.answer.unavailable && o.answer.resetAt == Some(end)
            && (o.answer.ok ==> o.answer.retryAfterS == 0) && (!o.answer.ok ==> SecondsUntil(o.answer.retryAfterS, end - now)))
  {
  }

  // ----- refunds -----

  /** A refund goes through in an open window with a call to give back, the one it names if it names one, and takes exactly one. */
  lemma ARefundGivesOneBack(row: Option<Row>, now: int, named: Option<int>)
    ensures
      var (row', went) := Refund(row, now, named);
      && (went <==> CountedBy(row, now) > 0 && (named == None || named == Some(row.value.resetAt)))
      && (went ==> row' == Some(Row(row.value.count - 1, row.value.resetAt)))
      && (!went ==> row' == row)
  {
  }

  /** A call of a process at a time, answered by the store. */
  datatype Asked = Asked(p: Process, at: int)

  /** How many of these calls, one after another, are allowed. */
  function Granted(l: Limits, s: Shared, calls: seq<Asked>): nat
    decreases |calls|
  {
    if calls == [] then 0
    else
      var e := Try(calls[0].p, calls[0].at, Replied);
      (if Outcomes(l, s, e).answer.ok then 1 else 0) + Granted(l, Next(l, s, e), calls[1..])
  }

  function Least(a: int, b: int): int { if a < b then a else b }

  /** What is left of the limit. */
  function Room(l: Limits, s: Shared): nat
    requires s.row.Some?
  {
    if s.row.value.count < l.limit then l.limit - s.row.value.count else 0
  }

  /** The calls all fall in the open window. */
  predicate InTheWindow(s: Shared, calls: seq<Asked>) {
    s.row.Some? && forall i :: 0 <= i < |calls| ==> calls[i].at < s.row.value.resetAt
  }

  /** Of calls in an open window of a closed key, whichever processes make them, as many are allowed as there is room for. */
  lemma {:induction false} TheWindowGrantsItsRoom(l: Limits, s: Shared, calls: seq<Asked>)
    requires NothingOffline(s) && InTheWindow(s, calls)
    ensures Granted(l, s, calls) == Least(|calls|, Room(l, s))
    decreases |calls|
  {
    if calls != [] {
      var e := Try(calls[0].p, calls[0].at, Replied);
      AnAnsweredCall(FailClosed, l, s.row, BucketOf(s, e.p), e.at);
      assert calls[0].at < s.row.value.resetAt;
      assert Next(l, s, e).row == Some(Row(s.row.value.count + 1, s.row.value.resetAt));
      TheWindowGrantsItsRoom(l, Next(l, s, e), calls[1..]);
    }
  }

  /**
    So a refund that goes through before the limit is passed lets exactly one more of the calls in that window through,
    if there is one that was refused; one that does not go through lets none.
  */
  lemma ARefundAllowsOneMore(l: Limits, s: Shared, at: int, named: Option<int>, calls: seq<Asked>)
    requires NothingOffline(s) && InTheWindow(s, calls)
    ensures
      var s' := Next(l, s, GiveBack(at, named));
      Granted(l, s', calls) ==
        if Refund(s.row, at, named).1 && s.row.value.count <= l.limit && Granted(l, s, calls) < |calls|
        then Granted(l, s, calls) + 1 else Granted(l, s, calls)
  {
    var s' := Next(l, s, GiveBack(at, named));
    ARefundGivesOneBack(s.row, at, named);
    TheWindowGrantsItsRoom(l, s, calls);
    TheWindowGrantsItsRoom(l, s', calls);
  }
}
