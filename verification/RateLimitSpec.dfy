/**
  The rate limiter of one key (web/lib/rate-limit.ts:68-130): a fixed-window counter in the shared store, and a
  process's own shadow of it for when the store cannot answer. Times are in milliseconds.
*/
module RateLimitSpec {
  import opened Common

  datatype Row = Row(count: nat, resetAt: int)
  datatype Bucket = Bucket(seen: nat, offline: nat, resetAt: int)

  /** What a key's kind does while the store cannot answer. */
  datatype Policy = FailClosed | OwnLimit

  /** The store answers; counts the call but its reply is lost; or cannot be reached. */
  datatype Reply = Replied | Lost | Down

  datatype Answer = Answer(ok: bool, retryAfterS: int, unavailable: bool, resetAt: Option<int>)

  datatype Limits = Limits(limit: nat, windowMs: nat)

  const UNAVAILABLE_RETRY_S := 30

  function CeilDiv(x: int, n: int): int
    requires 0 < n
  {
    (x + n - 1) / n
  }

  predicate RowLive(row: Option<Row>, now: int) { row.Some? && now < row.value.resetAt }
  predicate BucketLive(b: Option<Bucket>, now: int) { b.Some? && now < b.value.resetAt }

  /** The upsert: one more in the open window, or the first of a new one. */
  function Upsert(row: Option<Row>, l: Limits, now: int): Row {
    if RowLive(row, now) then Row(row.value.count + 1, row.value.resetAt) else Row(1, now + l.windowMs)
  }

  function Decide(count: nat, resetAt: int, limit: nat, now: int): Answer {
    if count <= limit then Answer(true, 0, false, Some(resetAt))
    else Answer(false, CeilDiv(resetAt - now, 1000), false, Some(resetAt))
  }

  function Max(a: int, b: int): int { if a < b then b else a }

  /** The shadow's bucket for this call: the open one, or a fresh one that ends at `resetAt`. */
  function OpenBucket(b: Option<Bucket>, now: int, resetAt: int): Bucket {
    if BucketLive(b, now) then b.value else Bucket(0, 0, resetAt)
  }

  datatype Outcome = Outcome(row: Option<Row>, bucket: Option<Bucket>, answer: Answer)

  /** One call of a process. */
  function Call(p: Policy, l: Limits, row: Option<Row>, b: Option<Bucket>, now: int, reply: Reply): Outcome {
    var row' := if reply == Down then row else Some(Upsert(row, l, now));
    if reply != Replied then
      if p == FailClosed then Outcome(row', b, Answer(false, UNAVAILABLE_RETRY_S, true, None))
      else
        var open := OpenBucket(b, now, now + l.windowMs);
        var b' := open.(offline := open.offline + 1);
        Outcome(row', Some(b'), Decide(b'.seen + b'.offline, b'.resetAt, l.limit, now))
    else
      var shared := row'.value;
      var open := OpenBucket(b, now, shared.resetAt);
      var b' := Bucket(Max(open.seen, shared.count), open.offline, Max(open.resetAt, shared.resetAt));
      Outcome(row', Some(b'), Decide(shared.count + b'.offline, b'.resetAt, l.limit, now).(resetAt := Some(shared.resetAt)))
  }

  /** Gives a counted call back, in the open window only, and only in the named one when one is named. */
  function Refund(row: Option<Row>, now: int, named: Option<int>): (Option<Row>, bool) {
    if RowLive(row, now) && row.value.count > 0 && (named.Some? ==> named.value == row.value.resetAt)
    then (Some(row.value.(count := row.value.count - 1)), true) else (row, false)
  }

  // ===== one process and a 'local' key =====

  datatype Local = Local(row: Option<Row>, bucket: Option<Bucket>, now: int)
  datatype Ask = Ask(at: int, reply: Reply)

  function Step(l: Limits, s: Local, a: Ask): Local {
    var o := Call(OwnLimit, l, s.row, s.bucket, a.at, a.reply);
    Local(o.row, o.bucket, a.at)
  }

  function AnswerTo(l: Limits, s: Local, a: Ask): Answer {
    Call(OwnLimit, l, s.row, s.bucket, a.at, a.reply).answer
  }

  /** A run: the clock never goes back. */
  ghost predicate Run(l: Limits, states: seq<Local>, asks: seq<Ask>) {
    && |states| == |asks| + 1
    && forall i :: 0 <= i < |asks| ==> states[i].now <= asks[i].at && states[i + 1] == Step(l, states[i], asks[i])
  }

  /**
    The open store window and the open shadow end together, and a count the shadow was told is of that window. A
    process that starts with no open window of this key in the store is aligned.
  */
  predicate Aligned(l: Limits, s: Local, now: int) {
    && (RowLive(s.row, now) ==> s.bucket.Some? && s.bucket.value.resetAt == s.row.value.resetAt)
    && (BucketLive(s.bucket, now) ==> s.bucket.value.resetAt <= now + l.windowMs)
    && (BucketLive(s.bucket, now) && 0 < s.bucket.value.seen ==> RowLive(s.row, now) && s.bucket.value.seen <= s.row.value.count)
  }

  /** A call the store counts in a new window, with its reply lost, while the shadow is older and still open. */
  predicate OpensUnseen(l: Limits, s: Local, a: Ask) {
    && a.reply == Lost && !RowLive(s.row, a.at)
    && BucketLive(s.bucket, a.at) && s.bucket.value.resetAt < a.at + l.windowMs
  }

  /** That call, and no other, takes the shadow and the store's window apart. */
  lemma OnlyAnUnseenWindowMisaligns(l: Limits, s: Local, a: Ask)
    requires 0 < l.windowMs && Aligned(l, s, s.now) && s.now <= a.at
    ensures Aligned(l, Step(l, s, a), a.at) <==> !OpensUnseen(l, s, a)
  {
  }

  /** How many of asks[i..j] were allowed. */
  function Allowed(l: Limits, states: seq<Local>, asks: seq<Ask>, i: nat, j: nat): nat
    requires i <= j <= |asks| && |states| == |asks| + 1
    decreases j - i
  {
    if i == j then 0
    else Allowed(l, states, asks, i, j - 1) + (if AnswerTo(l, states[j - 1], asks[j - 1]).ok then 1 else 0)
  }

  /** asks[i] opens a shadow window, and asks[i..j] are all in it. */
  ghost predicate OneShadow(states: seq<Local>, asks: seq<Ask>, i: nat, j: nat)
    requires i <= j <= |asks| && |states| == |asks| + 1
  {
    && (i < j ==> !BucketLive(states[i].bucket, asks[i].at))
    && forall k :: i < k < j ==> BucketLive(states[k].bucket, asks[k].at)
  }

  ghost predicate NoUnseenWindow(l: Limits, states: seq<Local>, asks: seq<Ask>)
    requires |states| == |asks| + 1
  {
    forall k :: 0 <= k < |asks| ==> !OpensUnseen(l, states[k], asks[k])
  }

  lemma {:induction false} RunsStayAligned(l: Limits, states: seq<Local>, asks: seq<Ask>, n: nat)
    requires 0 < l.windowMs && Run(l, states, asks) && NoUnseenWindow(l, states, asks)
    requires Aligned(l, states[0], states[0].now) && n < |states|
    ensures Aligned(l, states[n], states[n].now)
  {
    if n > 0 {
      RunsStayAligned(l, states, asks, n - 1);
      OnlyAnUnseenWindowMisaligns(l, states[n - 1], asks[n - 1]);
    }
  }

  /** In an aligned state each call of an open shadow is decided on a count above all before it. */
  lemma CallsCountUp(l: Limits, s: Local, a: Ask)
    requires Aligned(l, s, s.now) && s.now <= a.at
    ensures
      var b' := Step(l, s, a).bucket;
      && b'.Some?
      && (BucketLive(s.bucket, a.at) ==> s.bucket.value.seen + s.bucket.value.offline < b'.value.seen + b'.value.offline)
      && 1 <= b'.value.seen + b'.value.offline
      && (AnswerTo(l, s, a).ok <==> b'.value.seen + b'.value.offline <= l.limit)
  {
  }

  /**
    Whatever the pattern of outages and lost replies, one shadow window allows at most `limit` calls, provided no
    lost reply opened a store window under an open shadow.
  */
  lemma {:induction false} AShadowAllowsTheLimit(l: Limits, states: seq<Local>, asks: seq<Ask>, i: nat, j: nat)
    requires 0 < l.windowMs && Run(l, states, asks) && NoUnseenWindow(l, states, asks)
    requires Aligned(l, states[0], states[0].now)
    requires i <= j <= |asks| && OneShadow(states, asks, i, j)
    ensures Allowed(l, states, asks, i, j) <= l.limit
    ensures i < j ==>
      && states[j].bucket.Some?
      && Allowed(l, states, asks, i, j) <= states[j].bucket.value.seen + states[j].bucket.value.offline
    decreases j - i
  {
    if i < j {
      AShadowAllowsTheLimit(l, states, asks, i, j - 1);
      RunsStayAligned(l, states, asks, j - 1);
      CallsCountUp(l, states[j - 1], asks[j - 1]);
    }
  }

  // ----- with no outage -----

  /** A plain fixed-window counter. */
  datatype Window = Window(count: nat, endsAt: int)

  function Count(w: Window, l: Limits, now: int): Window {
    if now < w.endsAt then w.(count := w.count + 1) else Window(1, now + l.windowMs)
  }

  function WindowAnswer(w: Window, l: Limits, now: int): Answer {
    if w.count <= l.limit then Answer(true, 0, false, Some(w.endsAt))
    else Answer(false, CeilDiv(w.endsAt - now, 1000), false, Some(w.endsAt))
  }

  function Windows(l: Limits, start: Window, asks: seq<Ask>, n: nat): Window
    requires n <= |asks|
  {
    if n == 0 then start else Count(Windows(l, start, asks, n - 1), l, asks[n - 1].at)
  }

  /** The store and an idle shadow hold a window of the plain counter. */
  predicate Shadows(s: Local, w: Window) {
    if s.row.None? then s.bucket.None? && w.endsAt <= s.now
    else s.row.value == Row(w.count, w.endsAt) && s.bucket.Some? && s.bucket.value.offline == 0 && s.bucket.value.resetAt == w.endsAt
  }

  /** When the store always answers, so does the limiter as the plain counter would, from an empty store on. */
  lemma {:induction false} WithNoOutageItIsAPlainCounter(l: Limits, states: seq<Local>, asks: seq<Ask>, start: Window, n: nat)
    requires Run(l, states, asks) && n < |states|
    requires states[0].row.None? && states[0].bucket.None? && start.endsAt <= states[0].now
    requires forall k :: 0 <= k < |asks| ==> asks[k].reply == Replied
    ensures Shadows(states[n], Windows(l, start, asks, n))
    ensures n < |asks| ==> AnswerTo(l, states[n], asks[n]) == WindowAnswer(Windows(l, start, asks, n + 1), l, asks[n].at)
  {
    if n > 0 { WithNoOutageItIsAPlainCounter(l, states, asks, start, n - 1); }
  }
}
