/**
  How many calls a shadow window of a local key allows at most, over any pattern of outages and lost replies
  (web/lib/rate-limit.ts:61-113): a run can pass its limit, and this is how far.
*/
module RateLimitBound {
  import opened Common
  import opened RateLimitSpec

  /** Where a run may begin: windows of this length, and a counted row. Any store and any process qualify. */
  predicate Startable(l: Limits, s: Local) {
    && (s.row.Some? ==> 1 <= s.row.value.count && s.row.value.resetAt <= s.now + l.windowMs)
    && (s.bucket.Some? ==> s.bucket.value.resetAt <= s.now + l.windowMs)
  }

  /** The store's window ends before the shadow, or ended already after the shadow was told its count. */
  predicate Behind(s: Local, now: int)
    requires BucketLive(s.bucket, now)
  {
    if RowLive(s.row, now) then s.row.value.resetAt < s.bucket.value.resetAt else 0 < s.bucket.value.seen
  }

  /** Of `allowed` calls `told` were decided on what the store said in its window, and the others offline. */
  predicate OneWindow(l: Limits, s: Local, now: int, allowed: nat, told: nat)
    requires BucketLive(s.bucket, now)
  {
    var b := s.bucket.value;
    && told <= allowed <= l.limit && told <= b.seen && allowed - told <= b.offline
    && (RowLive(s.row, now) ==> told <= s.row.value.count)
    && (Behind(s, now) ==>
          && 1 <= b.offline
          && (0 < told ==> told < b.seen && allowed < l.limit && (RowLive(s.row, now) ==> told < s.row.value.count)))
  }

  /** The store has opened another window since: `told` were decided on that one. */
  predicate TwoWindows(l: Limits, s: Local, now: int, allowed: nat, told: nat)
    requires BucketLive(s.bucket, now)
  {
    var b := s.bucket.value;
    && RowLive(s.row, now) && b.resetAt <= s.row.value.resetAt && 1 <= b.offline
    && told <= allowed && told <= s.row.value.count && told < l.limit
    && allowed - told < l.limit && allowed - told < b.seen + b.offline
  }

  /** What holds of the calls the open shadow window has allowed so far. */
  predicate Accounted(l: Limits, s: Local, now: int, allowed: nat) {
    && Startable(l, s.(now := now))
    && BucketLive(s.bucket, now)
    && (|| (exists told: nat :: told <= allowed && OneWindow(l, s, now, allowed, told))
        || (exists told: nat :: told <= allowed && TwoWindows(l, s, now, allowed, told)))
  }

  /** Accounted for, all in one window of the store. */
  predicate InOneWindow(l: Limits, s: Local, now: int, allowed: nat) {
    && BucketLive(s.bucket, now)
    && exists told: nat :: told <= allowed && OneWindow(l, s, now, allowed, told)
  }

  function One(ok: bool): nat { if ok then 1 else 0 }

  // ----- one call -----

  lemma StepsStart(l: Limits, s: Local, a: Ask)
    requires 0 < l.windowMs && Startable(l, s) && s.now <= a.at
    ensures Startable(l, Step(l, s, a)) && BucketLive(Step(l, s, a).bucket, a.at)
  {
  }

  /** The call that opens a shadow. */
  lemma Opening(l: Limits, s: Local, a: Ask)
    requires 0 < l.windowMs && Startable(l, s) && s.now <= a.at && !BucketLive(s.bucket, a.at)
    ensures InOneWindow(l, Step(l, s, a), a.at, One(AnswerTo(l, s, a).ok))
  {
    var ok := One(AnswerTo(l, s, a).ok);
    assert OneWindow(l, Step(l, s, a), a.at, ok, if a.reply == Replied then ok else 0);
  }

  lemma OneWindowLater(l: Limits, s: Local, now: int, at: int, allowed: nat, told: nat)
    requires BucketLive(s.bucket, at) && now <= at && OneWindow(l, s, now, allowed, told)
    ensures OneWindow(l, s, at, allowed, told)
  {
  }

  /** The store's window was over, and the shadow had been told its count: the call opens another one. */
  predicate RollsUnder(s: Local, a: Ask) {
    a.reply != Down && !RowLive(s.row, a.at) && BucketLive(s.bucket, a.at) && 0 < s.bucket.value.seen
  }

  lemma StaysInOneWindow(l: Limits, s: Local, a: Ask, allowed: nat, told: nat)
    requires 0 < l.windowMs && Startable(l, s) && s.now <= a.at && BucketLive(s.bucket, a.at)
    requires OneWindow(l, s, a.at, allowed, told) && (RollsUnder(s, a) ==> told == 0)
    ensures InOneWindow(l, Step(l, s, a), a.at, allowed + One(AnswerTo(l, s, a).ok))
  {
    var ok := One(AnswerTo(l, s, a).ok);
    assert OneWindow(l, Step(l, s, a), a.at, allowed + ok, if a.reply == Replied then told + ok else told);
  }

  lemma EntersAnother(l: Limits, s: Local, a: Ask, allowed: nat, told: nat)
    requires 0 < l.windowMs && Startable(l, s) && s.now <= a.at && BucketLive(s.bucket, a.at)
    requires OneWindow(l, s, a.at, allowed, told) && RollsUnder(s, a) && 0 < told
    ensures
      var ok := One(AnswerTo(l, s, a).ok);
      TwoWindows(l, Step(l, s, a), a.at, allowed + ok, if a.reply == Replied then ok else 0)
  {
  }

  lemma StaysInTwo(l: Limits, s: Local, a: Ask, allowed: nat, told: nat)
    requires 0 < l.windowMs && Startable(l, s) && s.now <= a.at && BucketLive(s.bucket, a.at)
    requires TwoWindows(l, s, s.now, allowed, told)
    ensures
      var ok := One(AnswerTo(l, s, a).ok);
      TwoWindows(l, Step(l, s, a), a.at, allowed + ok, if a.reply == Replied then told + ok else told)
  {
  }

  lemma NextCall(l: Limits, s: Local, a: Ask, allowed: nat)
    requires 0 < l.windowMs && s.now <= a.at && BucketLive(s.bucket, a.at) && Accounted(l, s, s.now, allowed)
    ensures Accounted(l, Step(l, s, a), a.at, allowed + One(AnswerTo(l, s, a).ok))
  {
    StepsStart(l, s, a);
    if told: nat :| told <= allowed && OneWindow(l, s, s.now, allowed, told) {
      OneWindowLater(l, s, s.now, a.at, allowed, told);
      if RollsUnder(s, a) && 0 < told {
        EntersAnother(l, s, a, allowed, told);
      } else {
        StaysInOneWindow(l, s, a, allowed, told);
      }
    } else {
      var told: nat :| told <= allowed && TwoWindows(l, s, s.now, allowed, told);
      StaysInTwo(l, s, a, allowed, told);
    }
  }

  // ----- a run -----

  lemma {:induction false} AllStart(l: Limits, states: seq<Local>, asks: seq<Ask>, n: nat)
    requires Run(l, states, asks) && Startable(l, states[0]) && n < |states|
    ensures Startable(l, states[n])
  {
    if n > 0 { AllStart(l, states, asks, n - 1); }
  }

  /** With no window at all each call opens a shadow of its own. */
  lemma AloneInItsShadow(l: Limits, states: seq<Local>, asks: seq<Ask>, i: nat, j: nat)
    requires l.windowMs == 0 && Run(l, states, asks) && Startable(l, states[0])
    requires i < j <= |asks| && OneShadow(states, asks, i, j)
    ensures Allowed(l, states, asks, i, j) <= l.limit
  {
    AllStart(l, states, asks, i);
    AllStart(l, states, asks, i + 1);
    assert j == i + 1;
    assert Allowed(l, states, asks, i, i) == 0;
  }

  lemma {:induction false} AllowedIsAccounted(l: Limits, states: seq<Local>, asks: seq<Ask>, i: nat, j: nat)
    requires 0 < l.windowMs && Run(l, states, asks) && Startable(l, states[0])
    requires i < j <= |asks| && OneShadow(states, asks, i, j)
    ensures Accounted(l, states[j], states[j].now, Allowed(l, states, asks, i, j))
    decreases j
  {
    AllStart(l, states, asks, j - 1);
    if i == j - 1 {
      StepsStart(l, states[i], asks[i]);
      Opening(l, states[i], asks[i]);
      assert Allowed(l, states, asks, i, i) == 0;
    } else {
      AllowedIsAccounted(l, states, asks, i, j - 1);
      NextCall(l, states[j - 1], asks[j - 1], Allowed(l, states, asks, i, j - 1));
    }
  }

  /** The most a shadow window can allow. */
  function Most(l: Limits): nat { if l.limit <= 2 then l.limit else 2 * l.limit - 2 }

  /** In every run, from any store and process, a shadow window allows at most that many calls. */
  lemma AShadowAllowsAtMost(l: Limits, states: seq<Local>, asks: seq<Ask>, i: nat, j: nat)
    requires Run(l, states, asks) && Startable(l, states[0])
    requires i <= j <= |asks| && OneShadow(states, asks, i, j)
    ensures Allowed(l, states, asks, i, j) <= Most(l)
  {
    if i < j && l.windowMs == 0 {
      AloneInItsShadow(l, states, asks, i, j);
    } else if i < j {
      AllowedIsAccounted(l, states, asks, i, j);
    }
  }

  /** Unless the store opens a window under a shadow that was told of another, it allows its limit at most. */
  lemma {:induction false} AShadowOfOneWindow(l: Limits, states: seq<Local>, asks: seq<Ask>, i: nat, j: nat)
    requires 0 < l.windowMs && Run(l, states, asks) && Startable(l, states[0])
    requires i < j <= |asks| && OneShadow(states, asks, i, j)
    requires forall k :: i < k < j ==> !RollsUnder(states[k], asks[k])
    ensures Allowed(l, states, asks, i, j) <= l.limit
    ensures InOneWindow(l, states[j], states[j].now, Allowed(l, states, asks, i, j))
    decreases j
  {
    AllStart(l, states, asks, j - 1);
    if i == j - 1 {
      Opening(l, states[i], asks[i]);
      assert Allowed(l, states, asks, i, i) == 0;
    } else {
      AShadowOfOneWindow(l, states, asks, i, j - 1);
      var s, a, allowed := states[j - 1], asks[j - 1], Allowed(l, states, asks, i, j - 1);
      var told: nat :| told <= allowed && OneWindow(l, s, s.now, allowed, told);
      OneWindowLater(l, s, s.now, a.at, allowed, told);
      StaysInOneWindow(l, s, a, allowed, told);
    }
  }

  // ----- a run that allows the most -----

  /**
    The store is down, then answers with its reply lost, is down again as the next shadow opens, and answers from
    then on: limit - 2 calls in its first window, and limit - 1 in the window after.
  */
  function WorstAsk(l: Limits, i: nat): Ask {
    if i == 0 then Ask(0, Down)
    else if i == 1 then Ask(1, Lost)
    else if i == 2 then Ask(l.windowMs, Down)
    else if i <= l.limit then Ask(l.windowMs, Replied)
    else Ask(l.windowMs + 1, Replied)
  }

  function WorstState(l: Limits, i: nat): Local
    requires 2 <= l.limit
  {
    var w := l.windowMs;
    if i == 0 then Local(None, None, 0)
    else if i == 1 then Local(None, Some(Bucket(0, 1, w)), 0)
    else if i == 2 then Local(Some(Row(1, w + 1)), Some(Bucket(0, 2, w)), 1)
    else if i == 3 then Local(Some(Row(1, w + 1)), Some(Bucket(0, 1, 2 * w)), w)
    else if i <= l.limit + 1 then Local(Some(Row(i - 2, w + 1)), Some(Bucket(i - 2, 1, 2 * w)), w)
    else Local(Some(Row(i - l.limit - 1, 2 * w + 1)), Some(Bucket(l.limit - 1, 1, 2 * w + 1)), w + 1)
  }

  function WorstAsks(l: Limits): (asks: seq<Ask>)
    ensures |asks| == 2 * l.limit
  {
    seq(2 * l.limit, i requires 0 <= i => WorstAsk(l, i))
  }

  function WorstStates(l: Limits): (states: seq<Local>)
    requires 2 <= l.limit
    ensures |states| == 2 * l.limit + 1
  {
    seq(2 * l.limit + 1, i requires 0 <= i => WorstState(l, i))
  }

  lemma WorstSteps(l: Limits, i: nat)
    requires 2 <= l.limit && 2 <= l.windowMs && i < 2 * l.limit
    ensures WorstState(l, i).now <= WorstAsk(l, i).at && WorstState(l, i + 1) == Step(l, WorstState(l, i), WorstAsk(l, i))
    ensures 2 <= i ==> AnswerTo(l, WorstState(l, i), WorstAsk(l, i)).ok
    ensures BucketLive(WorstState(l, i).bucket, WorstAsk(l, i).at) <==> i == 1 || 2 < i
  {
  }

  lemma {:induction false} AllAreAllowed(l: Limits, j: nat)
    requires 2 <= l.limit && 2 <= l.windowMs && 2 <= j <= 2 * l.limit
    ensures Allowed(l, WorstStates(l), WorstAsks(l), 2, j) == j - 2
  {
    if j > 2 {
      AllAreAllowed(l, j - 1);
      WorstSteps(l, j - 1);
    }
  }

  /** For every limit from 2 on and every window, a run from an empty store in which a shadow window allows the most. */
  lemma TheMostIsAllowed(l: Limits)
    requires 2 <= l.limit && 2 <= l.windowMs
    ensures
      var states, asks, n := WorstStates(l), WorstAsks(l), 2 * l.limit;
      && Run(l, states, asks) && states[0] == Local(None, None, 0)
      && OneShadow(states, asks, 2, n) && Allowed(l, states, asks, 2, n) == n - 2
  {
    forall i: nat | i < 2 * l.limit
      ensures WorstState(l, i).now <= WorstAsk(l, i).at && WorstState(l, i + 1) == Step(l, WorstState(l, i), WorstAsk(l, i))
      ensures BucketLive(WorstState(l, i).bucket, WorstAsk(l, i).at) <==> i == 1 || 2 < i
    {
      WorstSteps(l, i);
    }
    AllAreAllowed(l, 2 * l.limit);
  }

  // ----- when the limit holds -----

  /** Every shadow window of every run allows at most the limit. */
  ghost predicate HoldsItsLimit(l: Limits) {
    forall states: seq<Local>, asks: seq<Ask>, i: nat, j: nat ::
      Run(l, states, asks) && Startable(l, states[0]) && i <= j <= |asks| && OneShadow(states, asks, i, j)
      ==> Allowed(l, states, asks, i, j) <= l.limit
  }

  /** A shadow told of a store window that is open. */
  predicate Told(s: Local) {
    BucketLive(s.bucket, s.now) && 0 < s.bucket.value.seen ==> RowLive(s.row, s.now)
  }

  /** A window of at most a millisecond ends before another can open under it. */
  lemma {:induction false} ShortWindowsDoNotRoll(l: Limits, states: seq<Local>, asks: seq<Ask>, i: nat, j: nat)
    requires l.windowMs <= 1 && Run(l, states, asks) && Startable(l, states[0])
    requires i < j <= |asks| && OneShadow(states, asks, i, j)
    ensures Told(states[j]) && Startable(l, states[j])
    ensures forall k :: i < k < j ==> !RollsUnder(states[k], asks[k])
    decreases j
  {
    if i < j - 1 {
      ShortWindowsDoNotRoll(l, states, asks, i, j - 1);
    } else {
      AllStart(l, states, asks, i);
    }
  }

  lemma HoldsWhen(l: Limits, states: seq<Local>, asks: seq<Ask>, i: nat, j: nat)
    requires l.limit <= 2 || l.windowMs <= 1
    requires Run(l, states, asks) && Startable(l, states[0]) && i < j <= |asks| && OneShadow(states, asks, i, j)
    ensures Allowed(l, states, asks, i, j) <= l.limit
  {
    if l.windowMs == 0 {
      AloneInItsShadow(l, states, asks, i, j);
    } else if l.limit <= 2 {
      AShadowAllowsAtMost(l, states, asks, i, j);
    } else {
      ShortWindowsDoNotRoll(l, states, asks, i, j);
      AShadowOfOneWindow(l, states, asks, i, j);
    }
  }

  /** A local key's limit holds in every run if and only if it is at most two, or its window at most a millisecond. */
  lemma TheLimitHoldsExactly(l: Limits)
    ensures HoldsItsLimit(l) <==> l.limit <= 2 || l.windowMs <= 1
  {
    if l.limit <= 2 || l.windowMs <= 1 {
      forall states: seq<Local>, asks: seq<Ask>, i: nat, j: nat
        | Run(l, states, asks) && Startable(l, states[0]) && i <= j <= |asks| && OneShadow(states, asks, i, j)
        ensures Allowed(l, states, asks, i, j) <= l.limit
      {
        if i < j { HoldsWhen(l, states, asks, i, j); }
      }
    } else {
      TheMostIsAllowed(l);
      var states, asks, n := WorstStates(l), WorstAsks(l), 2 * l.limit;
      assert Startable(l, states[0]) && Allowed(l, states, asks, 2, n) > l.limit;
    }
  }
}
