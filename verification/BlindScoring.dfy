/** Blind scoring: items pooled, shuffled, and judged without their system (web/lib/benchmark/runner.ts:220-246). */
module BlindScoring {
  import opened Common
  import opened Canonical
  import opened BatchSpec

  type BlindId = nat

  datatype Verdict = Pass | Fail | Unknown | Contradicted

  /** The verdicts on a result's four fields: each one of the four, or anything else. */
  datatype Verdicts = Verdicts(identity: Option<Verdict>, constraints: Option<Verdict>, eventDate: Option<Verdict>,
                               contact: Option<Verdict>)

  /** The evaluator's verdicts, by blind id; and the items' own. */
  type Judgement = map<BlindId, Verdicts>
  type Judged = map<(System, Entity), Verdicts>

  const ALL_UNKNOWN := Verdicts(Some(Unknown), Some(Unknown), Some(Unknown), Some(Unknown))

  predicate AllGiven(v: Verdicts) {
    v.identity.Some? && v.constraints.Some? && v.eventDate.Some? && v.contact.Some?
  }

  function OrUnknown(v: Option<Verdict>): Option<Verdict> { if v.Some? then v else Some(Unknown) }

  /** What is none of the four is unknown. */
  function Normalised(v: Verdicts): (n: Verdicts)
    ensures AllGiven(n) && (AllGiven(v) ==> n == v)
  {
    Verdicts(OrUnknown(v.identity), OrUnknown(v.constraints), OrUnknown(v.eventDate), OrUnknown(v.contact))
  }

  /** A pooled item: what the evaluator sees of it is named by its blind id only. */
  datatype Pooled = Pooled(blind: BlindId, system: System, entity: Entity)

  /** The shuffle: whatever the draws, a rearrangement of the pool. */
  method Shuffle(pool: array<Pooled>, draw: nat -> nat)
    modifies pool
    ensures multiset(pool[..]) == multiset(old(pool[..]))
  {
    var k := pool.Length - 1;
    while k > 0
      invariant -1 <= k < pool.Length
      invariant multiset(pool[..]) == multiset(old(pool[..]))
    {
      var j := draw(k) % (k + 1);
      pool[k], pool[j] := pool[j], pool[k];
      k := k - 1;
    }
  }

  /** Maps the evaluator's verdicts back to the items; an item it did not judge is unknown. */
  function MapBack(pool: seq<Pooled>, judged: Judgement): Judged {
    if pool == [] then map[]
    else
      var n := |pool| - 1;
      var p := pool[n];
      MapBack(pool[..n], judged)[(p.system, p.entity) := if p.blind in judged then Normalised(judged[p.blind]) else ALL_UNKNOWN]
  }

  /** Blind ids name items one to one. */
  ghost predicate Blind(pool: seq<Pooled>) {
    forall i, j :: 0 <= i < |pool| && 0 <= j < |pool| ==>
      (pool[i].blind == pool[j].blind <==> (pool[i].system, pool[i].entity) == (pool[j].system, pool[j].entity))
  }

  /** Every item gets back the verdict on its own blind id, wherever the shuffle put it. */
  lemma {:induction false} EachItemGetsItsVerdict(pool: seq<Pooled>, judged: Judgement, i: nat)
    requires Blind(pool) && i < |pool|
    ensures
      var ref := (pool[i].system, pool[i].entity);
      && ref in MapBack(pool, judged)
      && MapBack(pool, judged)[ref] == if pool[i].blind in judged then Normalised(judged[pool[i].blind]) else ALL_UNKNOWN
  {
    var n := |pool| - 1;
    if i < n {
      assert forall j :: 0 <= j < n ==> pool[..n][j] == pool[j];
      EachItemGetsItsVerdict(pool[..n], judged, i);
    }
  }

  /** The verdict on one field: what the evaluator said of it, or unknown. */
  predicate SaidOf(given: Option<Verdict>, said: Option<Verdict>) {
    given == match said case Some(v) => Some(v) case None => Some(Unknown)
  }

  /** An item's verdict on each field is the evaluator's on its blind id; what it did not judge is unknown, and so never passes. */
  lemma NothingPassesUnjudged(pool: seq<Pooled>, judged: Judgement, i: nat)
    requires Blind(pool) && i < |pool|
    ensures
      var p := pool[i];
      && (p.system, p.entity) in MapBack(pool, judged)
      && var v := MapBack(pool, judged)[(p.system, p.entity)];
         if p.blind in judged
         then var j := judged[p.blind];
              && SaidOf(v.identity, j.identity) && SaidOf(v.constraints, j.constraints)
              && SaidOf(v.eventDate, j.eventDate) && SaidOf(v.contact, j.contact)
         else && v.identity == Some(Unknown) && v.constraints == Some(Unknown)
              && v.eventDate == Some(Unknown) && v.contact == Some(Unknown)
  {
    EachItemGetsItsVerdict(pool, judged, i);
  }

  lemma {:induction false} MappedAreGiven(pool: seq<Pooled>, judged: Judgement)
    ensures forall ref :: ref in MapBack(pool, judged) ==> AllGiven(MapBack(pool, judged)[ref])
  {
    if pool != [] { MappedAreGiven(pool[..|pool| - 1], judged); }
  }
}
