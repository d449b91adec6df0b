/**
  The check a recorded run must pass before it is scored (web/lib/benchmark/scorecard.ts:109-179), and why every
  run the runner assembles passes it (web/lib/benchmark/runner.ts:248-255).
*/
module Scorecard {
  import opened Common

  /** A rank as it was recorded: a positive safe integer, or anything else. */
  datatype Rank = Rank(n: int) | NotARank

  const MAX_SAFE := 9007199254740991

  predicate ValidRank(r: Rank) { r.Rank? && 1 <= r.n <= MAX_SAFE }

  /** The ranks of a list that are valid. */
  function RankSet(ranks: seq<Rank>): set<int> {
    set i | 0 <= i < |ranks| && ValidRank(ranks[i]) :: ranks[i].n
  }

  function Highest(ranks: seq<Rank>): nat {
    if ranks == [] then 0
    else
      var h, r := Highest(ranks[..|ranks| - 1]), ranks[|ranks| - 1];
      if ValidRank(r) && r.n > h then r.n else h
  }

  /** The problems of one task's ranks: how many are invalid, which repeat, and which are missing up to the bound. */
  datatype RankProblems = RankProblems(invalid: nat, repeated: set<int>, missing: seq<int>)

  method CheckRanks(ranks: seq<Rank>) returns (p: RankProblems)
    ensures p.invalid == HowManyInvalid(ranks)
    ensures forall n :: n in p.repeated <==> Repeats(ranks, n)
    ensures Ascending(p.missing) && forall k :: k in p.missing <==> 1 <= k <= |ranks| && k <= Highest(ranks) && k !in RankSet(ranks)
    ensures p.invalid == 0 <==> forall i :: 0 <= i < |ranks| ==> ValidRank(ranks[i])
    ensures p.repeated == {} <==> NoRepeats(ranks)
    ensures p.missing == [] <==> NoGaps(ranks)
  {
    var invalid := 0;
    var once, repeated: set<int> := {}, {};
    var highest := 0;
    for i := 0 to |ranks|
      invariant invalid == HowManyInvalid(ranks[..i])
      invariant once == RankSet(ranks[..i])
      invariant forall n :: n in repeated <==> Repeats(ranks[..i], n)
      invariant highest == Highest(ranks[..i])
    {
      var r := ranks[i];
      assert ranks[..i + 1] == ranks[..i] + [r];
      RankSetNext(ranks[..i], r);
      forall n ensures Repeats(ranks[..i] + [r], n) <==> Repeats(ranks[..i], n) || (r == Rank(n) && ValidRank(r) && n in once) {
        RepeatsNext(ranks[..i], r, n);
      }
      InvalidNext(ranks[..i], r);
      if ValidRank(r) {
        if r.n in once { repeated := repeated + {r.n}; }
        once := once + {r.n};
        if r.n > highest { highest := r.n; }
      } else {
        invalid := invalid + 1;
      }
    }
    assert ranks[..|ranks|] == ranks;
    var missing := MissingUpTo(once, if |ranks| < highest then |ranks| else highest);
    p := RankProblems(invalid, repeated, missing);
    NoneInvalid(ranks);
    NoneRepeat(ranks, repeated);
    NoneMissing(ranks, missing);
  }

  /** The numbers from 1 to the bound that are not there, in order. */
  method MissingUpTo(once: set<int>, bound: nat) returns (missing: seq<int>)
    ensures Ascending(missing) && forall k :: k in missing <==> 1 <= k <= bound && k !in once
  {
    missing := [];
    for k := 1 to bound + 1
      invariant Ascending(missing) && forall m :: m in missing <==> 1 <= m < k && m !in once
    {
      if k !in once {
        assert forall i :: 0 <= i < |missing| ==> missing[i] in missing;
        missing := missing + [k];
      }
    }
  }

  function HowManyInvalid(ranks: seq<Rank>): nat {
    if ranks == [] then 0 else HowManyInvalid(ranks[..|ranks| - 1]) + (if ValidRank(ranks[|ranks| - 1]) then 0 else 1)
  }

  /** The rank is there twice. */
  ghost predicate Repeats(ranks: seq<Rank>, n: int) {
    1 <= n <= MAX_SAFE && exists i, j :: 0 <= i < j < |ranks| && ranks[i] == Rank(n) && ranks[j] == Rank(n)
  }

  ghost predicate Ascending(s: seq<int>) {
    forall i, j :: 0 <= i < j < |s| ==> s[i] < s[j]
  }

  lemma InvalidNext(ranks: seq<Rank>, r: Rank)
    ensures HowManyInvalid(ranks + [r]) == HowManyInvalid(ranks) + (if ValidRank(r) then 0 else 1)
  {
    assert (ranks + [r])[..|ranks|] == ranks;
  }

  lemma RepeatsNext(ranks: seq<Rank>, r: Rank, n: int)
    ensures Repeats(ranks + [r], n) <==> Repeats(ranks, n) || (r == Rank(n) && ValidRank(r) && n in RankSet(ranks))
  {
    var all := ranks + [r];
    assert all[|ranks|] == r && forall i :: 0 <= i < |ranks| ==> all[i] == ranks[i];
    if Repeats(ranks, n) {
      var i, j :| 0 <= i < j < |ranks| && ranks[i] == Rank(n) && ranks[j] == Rank(n);
      assert all[i] == Rank(n) && all[j] == Rank(n);
    }
    if r == Rank(n) && ValidRank(r) && n in RankSet(ranks) {
      var i :| 0 <= i < |ranks| && ValidRank(ranks[i]) && ranks[i].n == n;
      assert all[i] == Rank(n);
    }
  }

  lemma {:induction false} NoneInvalid(ranks: seq<Rank>)
    ensures HowManyInvalid(ranks) == 0 <==> forall i :: 0 <= i < |ranks| ==> ValidRank(ranks[i])
  {
    if ranks != [] { NoneInvalid(ranks[..|ranks| - 1]); }
  }

  lemma NoneRepeat(ranks: seq<Rank>, repeated: set<int>)
    requires forall n :: n in repeated <==> Repeats(ranks, n)
    ensures repeated == {} <==> NoRepeats(ranks)
  {
    if !NoRepeats(ranks) {
      var i, j :| 0 <= i < j < |ranks| && ValidRank(ranks[i]) && ValidRank(ranks[j]) && ranks[i].n == ranks[j].n;
      assert Repeats(ranks, ranks[i].n);
    }
    if NoRepeats(ranks) {
      forall n: int ensures n !in repeated { assert !Repeats(ranks, n); }
      assert repeated == {};
    }
  }

  lemma NoneMissing(ranks: seq<Rank>, missing: seq<int>)
    requires forall k :: k in missing <==> 1 <= k <= |ranks| && k <= Highest(ranks) && k !in RankSet(ranks)
    ensures missing == [] <==> NoGaps(ranks)
  {
    if missing != [] { assert missing[0] in missing; }
  }

  ghost predicate NoRepeats(ranks: seq<Rank>) {
    forall i, j :: 0 <= i < j < |ranks| && ValidRank(ranks[i]) && ValidRank(ranks[j]) ==> ranks[i].n != ranks[j].n
  }

  /** Every number up to the highest rank is there, looking no further than the number of results. */
  ghost predicate NoGaps(ranks: seq<Rank>) {
    forall k :: 1 <= k <= |ranks| && k <= Highest(ranks) ==> k in RankSet(ranks)
  }

  lemma RankSetNext(ranks: seq<Rank>, r: Rank)
    ensures RankSet(ranks + [r]) == if ValidRank(r) then RankSet(ranks) + {r.n} else RankSet(ranks)
    ensures NoRepeats(ranks + [r]) <==> NoRepeats(ranks) && !(ValidRank(r) && r.n in RankSet(ranks))
    ensures Highest(ranks + [r]) == if ValidRank(r) && r.n > Highest(ranks) then r.n else Highest(ranks)
  {
    var all := ranks + [r];
    assert all[..|ranks|] == ranks;
    assert forall i :: 0 <= i < |ranks| ==> all[i] == ranks[i];
    assert all[|ranks|] == r;
    if NoRepeats(all) {
      assert forall i, j :: 0 <= i < j < |ranks| ==> ranks[i] == all[i] && ranks[j] == all[j];
    }
    forall n | n in RankSet(all) ensures n in RankSet(ranks) || (ValidRank(r) && n == r.n) {
      var i :| 0 <= i < |all| && ValidRank(all[i]) && all[i].n == n;
    }
    forall n | n in RankSet(ranks) ensures n in RankSet(all) {
      var i :| 0 <= i < |ranks| && ValidRank(ranks[i]) && ranks[i].n == n;
      assert all[i].n == n;
    }
  }

  // ----- the bounded check is enough -----

  /** 1..n. */
  function Upto(n: nat): (s: set<int>)
    ensures forall k :: k in s <==> 1 <= k <= n
  {
    if n == 0 then {} else Upto(n - 1) + {n}
  }

  lemma {:induction false} SizeUpto(n: nat)
    ensures |Upto(n)| == n
  {
    if n > 0 {
      SizeUpto(n - 1);
    }
  }

  lemma SmallerSet(a: set<int>, b: set<int>)
    requires a <= b
    ensures |a| <= |b|
    ensures |a| == |b| ==> a == b
  {
    assert b == a + (b - a);
    assert |b| == |a| + |b - a|;
  }

  /** n valid ranks with no repeat are n numbers. */
  lemma {:induction false} AsManyRanks(ranks: seq<Rank>)
    requires NoRepeats(ranks) && forall i :: 0 <= i < |ranks| ==> ValidRank(ranks[i])
    ensures |RankSet(ranks)| == |ranks|
  {
    if ranks != [] {
      var rest, r := ranks[..|ranks| - 1], ranks[|ranks| - 1];
      assert ranks == rest + [r];
      RankSetNext(rest, r);
      AsManyRanks(rest);
    }
  }

  lemma {:induction false} HighestIsARank(ranks: seq<Rank>)
    ensures Highest(ranks) == 0 || Highest(ranks) in RankSet(ranks)
    ensures forall n :: n in RankSet(ranks) ==> 1 <= n <= Highest(ranks)
  {
    if ranks != [] {
      var rest, r := ranks[..|ranks| - 1], ranks[|ranks| - 1];
      assert ranks == rest + [r];
      RankSetNext(rest, r);
      HighestIsARank(rest);
    }
  }

  /**
    A task's ranks pass exactly when they are a permutation of 1..n. The check looks no further than n however
    large a rank is: were one larger, the n ranks could not also be all of 1..n.
  */
  lemma PassingRanksAreAPermutation(ranks: seq<Rank>)
    ensures (forall i :: 0 <= i < |ranks| ==> ValidRank(ranks[i])) && NoRepeats(ranks) && NoGaps(ranks)
       <==> (forall i :: 0 <= i < |ranks| ==> ValidRank(ranks[i])) && |RankSet(ranks)| == |ranks| && RankSet(ranks) == Upto(|ranks|)
  {
    var n, s := |ranks|, RankSet(ranks);
    SizeUpto(n);
    HighestIsARank(ranks);
    if forall i :: 0 <= i < |ranks| ==> ValidRank(ranks[i]) {
      if NoRepeats(ranks) && NoGaps(ranks) {
        AsManyRanks(ranks);
        if Highest(ranks) <= n {
          SmallerSet(s, Upto(n));
        } else {
          SmallerSet(Upto(n), s);
        }
      }
      if s == Upto(n) { CountedOnce(ranks); }
    }
  }

  /** n numbers among n valid ranks leave no repeat. */
  lemma {:induction false} CountedOnce(ranks: seq<Rank>)
    requires |RankSet(ranks)| == |ranks|
    ensures NoRepeats(ranks)
    ensures forall i :: 0 <= i < |ranks| ==> ValidRank(ranks[i])
  {
    if ranks != [] {
      var rest, r := ranks[..|ranks| - 1], ranks[|ranks| - 1];
      assert ranks == rest + [r];
      RankSetNext(rest, r);
      AtMostRanks(rest);
      CountedOnce(rest);
    }
  }

  lemma {:induction false} AtMostRanks(ranks: seq<Rank>)
    ensures |RankSet(ranks)| <= |ranks|
  {
    if ranks != [] {
      var rest, r := ranks[..|ranks| - 1], ranks[|ranks| - 1];
      assert ranks == rest + [r];
      RankSetNext(rest, r);
      AtMostRanks(rest);
    }
  }
}
