/** The limiter over its table and its map of shadows (web/lib/rate-limit.ts:68-130), proved to be RateLimitSpec. */
module RateLimitStore {
  import opened Common
  import opened RateLimitSpec

  type Key = string

  // ----- a key's kind -----

  /** A listed kind of key, and what it does while the store cannot answer. */
  datatype Kind = Kind(name: string, policy: Policy)

  predicate Matches(kind: Kind, k: Key) {
    kind.name + ":" <= k
  }

  /** Of the first n kinds, the longest whose name and a colon begin the key; "" when there is none. */
  function Best(kinds: seq<Kind>, k: Key, n: nat): Kind
    requires n <= |kinds|
  {
    if n == 0 then Kind("", FailClosed)
    else
      var best := Best(kinds, k, n - 1);
      if Matches(kinds[n - 1], k) && |kinds[n - 1].name| > |best.name| then kinds[n - 1] else best
  }

  ghost predicate Listed(kinds: seq<Kind>) {
    && (forall i :: 0 <= i < |kinds| ==> kinds[i].name != "")
    && forall i, j :: 0 <= i < j < |kinds| ==> kinds[i].name != kinds[j].name
  }

  /** The kind of a key does not depend on the order of the list: it is the longest that matches, and none means closed. */
  lemma {:induction false} TheLongestKindDecides(kinds: seq<Kind>, k: Key, n: nat)
    requires Listed(kinds) && n <= |kinds|
    ensures forall i :: 0 <= i < n && Matches(kinds[i], k) ==> |kinds[i].name| <= |Best(kinds, k, n).name|
    ensures forall i :: 0 <= i < n && Matches(kinds[i], k) && |kinds[i].name| == |Best(kinds, k, n).name| ==> kinds[i] == Best(kinds, k, n)
    ensures Best(kinds, k, n) == Kind("", FailClosed) <==> forall i :: 0 <= i < n ==> !Matches(kinds[i], k)
    ensures Best(kinds, k, n) == Kind("", FailClosed) || (Best(kinds, k, n) in kinds[..n] && Matches(Best(kinds, k, n), k))
  {
    if n > 0 {
      TheLongestKindDecides(kinds, k, n - 1);
      var before, next := Best(kinds, k, n - 1), kinds[n - 1];
      assert kinds[..n] == kinds[..n - 1] + [next];
      if Matches(next, k) && Matches(before, k) && |next.name| == |before.name| { SamePrefix(next, before, k); }
    }
  }

  lemma SamePrefix(x: Kind, y: Kind, k: Key)
    requires Matches(x, k) && Matches(y, k) && |x.name| == |y.name|
    ensures x.name == y.name
  {
    assert x.name == (x.name + ":")[..|x.name|] == k[..|x.name|];
    assert y.name == (y.name + ":")[..|y.name|] == k[..|y.name|];
  }

  method DegradedPolicy(kinds: seq<Kind>, k: Key) returns (policy: Policy)
    ensures policy == Best(kinds, k, |kinds|).policy
  {
    var best := Kind("", FailClosed);
    for i := 0 to |kinds|
      invariant best == Best(kinds, k, i)
    {
      if kinds[i].name + ":" <= k && |kinds[i].name| > |best.name| { best := kinds[i]; }
    }
    policy := best.policy;
  }

  /** Keys are cut to 300 characters, so longer ones that agree so far share a window. */
  function Cut(key: string): (k: Key)
    ensures k <= key && |k| == if |key| < 300 then |key| else 300
  {
    if |key| <= 300 then key else key[..300]
  }

  // ----- the tables -----

  /** Dead rows and closed buckets count for nothing, so they may be swept at any time. */
  function LiveRow(rows: map<Key, Row>, k: Key, now: int): Option<Row> {
    if k in rows && now < rows[k].resetAt then Some(rows[k]) else None
  }

  function LiveBucket(shadow: map<Key, Bucket>, k: Key, now: int): Option<Bucket> {
    if k in shadow && now < shadow[k].resetAt then Some(shadow[k]) else None
  }

  /** A row or a bucket, if its window is open: with a window of no length none is. */
  function OpenRow(row: Option<Row>, now: int): Option<Row> { if RowLive(row, now) then row else None }
  function OpenPart(b: Option<Bucket>, now: int): Option<Bucket> { if BucketLive(b, now) then b else None }

  /** The same live rows and buckets, but for one key. */
  ghost predicate OthersAlike(rows: map<Key, Row>, shadow: map<Key, Bucket>, rows': map<Key, Row>, shadow': map<Key, Bucket>,
                              k: Key, now: int) {
    forall u :: u != k ==> LiveRow(rows', u, now) == LiveRow(rows, u, now) && LiveBucket(shadow', u, now) == LiveBucket(shadow, u, now)
  }

  /** What the shadow and the answer are when the store does not answer does not depend on its row. */
  lemma UnansweredAlike(p: Policy, l: Limits, row: Option<Row>, b: Option<Bucket>, now: int)
    ensures
      var o := Call(p, l, None, b, now, Down);
      && Call(p, l, row, b, now, Down) == o.(row := row)
      && Call(p, l, row, b, now, Lost) == o.(row := Some(Upsert(row, l, now)))
  {
  }

  class Limiter {
    var rows: map<Key, Row>
    var shadow: map<Key, Bucket>
    var calls: nat

    constructor ()
      ensures rows == map[] && shadow == map[]
    {
      rows, shadow, calls := map[], map[], 0;
    }

    /** The key's open bucket; a shadow that has grown large is swept first. */
    method OpenBucketOf(k: Key, now: int) returns (b: Option<Bucket>)
      modifies `shadow
      ensures b == LiveBucket(old(shadow), k, now)
      ensures forall u :: LiveBucket(shadow, u, now) == LiveBucket(old(shadow), u, now)
    {
      if |shadow| > 10000 {
        shadow := map u | u in shadow && now < shadow[u].resetAt :: shadow[u];
      }
      b := if k in shadow && now < shadow[k].resetAt then Some(shadow[k]) else None;
    }

    method CountInStore(k: Key, windowMs: nat, now: int) returns (row: Row)
      modifies `rows
      ensures row == Upsert(LiveRow(old(rows), k, now), Limits(0, windowMs), now)
      ensures rows == old(rows)[k := row]
    {
      row := if k !in rows then Row(1, now + windowMs)
             else Row(if rows[k].resetAt <= now then 1 else rows[k].count + 1,
                      if rows[k].resetAt <= now then now + windowMs else rows[k].resetAt);
      rows := rows[k := row];
    }

    /** Every 500th answered call sweeps the dead rows. */
    method SweepSometimes(now: int)
      modifies `rows, `calls
      ensures forall u :: LiveRow(rows, u, now) == LiveRow(old(rows), u, now)
    {
      calls := calls + 1;
      if calls % 500 == 0 { rows := map u | u in rows && now < rows[u].resetAt :: rows[u]; }
    }

    /** The store could not answer. */
    method Unanswered(kinds: seq<Kind>, k: Key, l: Limits, now: int) returns (answer: Answer)
      modifies `shadow
      ensures
        var o := Call(Best(kinds, k, |kinds|).policy, l, None, LiveBucket(old(shadow), k, now), now, Down);
        answer == o.answer && LiveBucket(shadow, k, now) == OpenPart(o.bucket, now)
      ensures forall u :: u != k ==> LiveBucket(shadow, u, now) == LiveBucket(old(shadow), u, now)
    {
      var policy := DegradedPolicy(kinds, k);
      if policy == FailClosed { return Answer(false, UNAVAILABLE_RETRY_S, true, None); }
      var open := OpenBucketOf(k, now);
      var b := if open.Some? then open.value else Bucket(0, 0, now + l.windowMs);
      b := b.(offline := b.offline + 1);
      shadow := shadow[k := b];
      answer := Decide(b.seen + b.offline, b.resetAt, l.limit, now);
    }

    /** The store answered with its row. */
    method Answered(k: Key, l: Limits, shared: Row, now: int) returns (answer: Answer)
      modifies `shadow
      ensures
        var open := OpenBucket(LiveBucket(old(shadow), k, now), now, shared.resetAt);
        var b := Bucket(Max(open.seen, shared.count), open.offline, Max(open.resetAt, shared.resetAt));
        && LiveBucket(shadow, k, now) == OpenPart(Some(b), now)
        && answer == Decide(shared.count + b.offline, b.resetAt, l.limit, now).(resetAt := Some(shared.resetAt))
      ensures forall u :: u != k ==> LiveBucket(shadow, u, now) == LiveBucket(old(shadow), u, now)
    {
      var open := OpenBucketOf(k, now);
      var b := if open.Some? then open.value else Bucket(0, 0, shared.resetAt);
      b := b.(resetAt := Max(b.resetAt, shared.resetAt));
      b := b.(seen := Max(b.seen, shared.count));
      shadow := shadow[k := b];
      answer := Decide(shared.count + b.offline, b.resetAt, l.limit, now).(resetAt := Some(shared.resetAt));
    }

    /** One call. `reply` is what the store does; `kinds` is the list of kinds. */
    method RateLimit(kinds: seq<Kind>, key: string, limit: nat, windowMs: nat, reply: Reply,
                     now: int) returns (answer: Answer)
      modifies this
      ensures
        var k := Cut(key);
        var policy := Best(kinds, k, |kinds|).policy;
        var o := Call(policy, Limits(limit, windowMs), LiveRow(old(rows), k, now), LiveBucket(old(shadow), k, now), now, reply);
        && answer == o.answer && LiveRow(rows, k, now) == OpenRow(o.row, now) && LiveBucket(shadow, k, now) == OpenPart(o.bucket, now)
        && OthersAlike(old(rows), old(shadow), rows, shadow, k, now)
    {
      var k := if |key| <= 300 then key else key[..300];
      if reply != Replied {
        UnansweredAlike(Best(kinds, k, |kinds|).policy, Limits(limit, windowMs), LiveRow(rows, k, now), LiveBucket(shadow, k, now), now);
        if reply == Lost { var _ := CountInStore(k, windowMs, now); }
        answer := Unanswered(kinds, k, Limits(limit, windowMs), now);
      } else {
        var shared := CountInStore(k, windowMs, now);
        SweepSometimes(now);
        answer := Answered(k, Limits(limit, windowMs), shared, now);
      }
    }

    method RefundRateLimit(key: string, now: int, named: Option<int>) returns (gone: bool)
      modifies `rows
      ensures (LiveRow(rows, Cut(key), now), gone) == Refund(LiveRow(old(rows), Cut(key), now), now, named)
      ensures OthersAlike(old(rows), shadow, rows, shadow, Cut(key), now)
    {
      var k := if |key| <= 300 then key else key[..300];
      gone := k in rows && rows[k].count > 0 && rows[k].resetAt > now && (named.None? || rows[k].resetAt == named.value);
      if gone { rows := rows[k := rows[k].(count := rows[k].count - 1)]; }
    }
  }
}
