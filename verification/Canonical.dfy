/** One row per entity in a system's own order (web/lib/benchmark/runner.ts:118-130). */
module Canonical {
  import opened Common

  type Entity = nat

  /** An item a system returned; `key` is its domain or name key, none when it has neither. */
  datatype RawItem = RawItem(key: Option<Entity>, content: nat)
  datatype CanonicalItem = CanonicalItem(rank: nat, key: Entity, raw: RawItem)

  /** The first item of its entity. */
  predicate IsFirst(items: seq<RawItem>, i: nat)
    requires i < |items|
  {
    items[i].key.Some? && forall j :: 0 <= j < i ==> items[j].key != items[i].key
  }

  function Canonicalize(items: seq<RawItem>): seq<CanonicalItem> {
    if items == [] then []
    else
      var n := |items| - 1;
      var out := Canonicalize(items[..n]);
      if IsFirst(items, n) then out + [CanonicalItem(|out| + 1, items[n].key.value, items[n])] else out
  }

  /** The loop, with the set of entities it has seen. */
  method CanonicalizeItems(items: seq<RawItem>) returns (out: seq<CanonicalItem>)
    ensures out == Canonicalize(items)
  {
    out := [];
    var seen: set<Entity> := {};
    for i := 0 to |items|
      invariant out == Canonicalize(items[..i])
      invariant forall e :: e in seen <==> exists j :: 0 <= j < i && items[j].key == Some(e)
    {
      assert items[..i + 1][..i] == items[..i];
      assert IsFirst(items[..i + 1], i) <==> items[i].key.Some? && items[i].key.value !in seen;
      if items[i].key.Some? && items[i].key.value !in seen {
        seen := seen + {items[i].key.value};
        out := out + [CanonicalItem(|out| + 1, items[i].key.value, items[i])];
      }
    }
    assert items[..|items|] == items;
  }

  function Entities(items: seq<RawItem>): set<Entity> {
    set i | 0 <= i < |items| && items[i].key.Some? :: items[i].key.value
  }

  function Keys(out: seq<CanonicalItem>): set<Entity> {
    set i | 0 <= i < |out| :: out[i].key
  }

  lemma EntitiesNext(items: seq<RawItem>, x: RawItem)
    ensures Entities(items + [x]) == if x.key.Some? then Entities(items) + {x.key.value} else Entities(items)
    ensures IsFirst(items + [x], |items|) <==> x.key.Some? && x.key.value !in Entities(items)
  {
    var all := items + [x];
    assert all[|items|] == x && forall i :: 0 <= i < |items| ==> all[i] == items[i];
    forall e | e in Entities(all) ensures e in Entities(items) || x.key == Some(e) {
      var i :| 0 <= i < |all| && all[i].key.Some? && all[i].key.value == e;
    }
    forall e | e in Entities(items) ensures e in Entities(all) {
      var i :| 0 <= i < |items| && items[i].key.Some? && items[i].key.value == e;
      assert all[i].key.value == e;
    }
  }

  lemma KeysNext(out: seq<CanonicalItem>, x: CanonicalItem)
    ensures Keys(out + [x]) == Keys(out) + {x.key}
  {
    var all := out + [x];
    assert all[|out|] == x;
    forall e | e in Keys(out) ensures e in Keys(all) {
      var i :| 0 <= i < |out| && out[i].key == e;
      assert all[i].key == e;
    }
  }

  ghost predicate RanksCountUp(out: seq<CanonicalItem>) {
    forall k :: 0 <= k < |out| ==> out[k].rank == k + 1
  }

  ghost predicate NoEntityTwice(out: seq<CanonicalItem>) {
    forall k, m :: 0 <= k < m < |out| ==> out[k].key != out[m].key
  }

  /** Ranks count up from 1, no entity appears twice, and the entities are exactly those returned. */
  lemma {:induction false} CanonicalRows(items: seq<RawItem>)
    ensures RanksCountUp(Canonicalize(items)) && NoEntityTwice(Canonicalize(items))
    ensures Keys(Canonicalize(items)) == Entities(items)
  {
    if items != [] {
      var rest, x := items[..|items| - 1], items[|items| - 1];
      CanonicalRows(rest);
      assert items == rest + [x];
      EntitiesNext(rest, x);
      if IsFirst(items, |rest|) {
        KeysNext(Canonicalize(rest), CanonicalItem(|Canonicalize(rest)| + 1, x.key.value, x));
        assert forall k :: 0 <= k < |Canonicalize(rest)| ==> Canonicalize(rest)[k].key in Keys(Canonicalize(rest));
      }
    }
  }

  /** Where a row comes from: the first item of its entity, with every better-ranked row from an earlier item. */
  lemma {:induction false} RowsKeepTheirOrder(items: seq<RawItem>, k: nat) returns (i: nat)
    requires k < |Canonicalize(items)|
    ensures i < |items| && IsFirst(items, i) && Canonicalize(items)[k].raw == items[i]
    ensures Canonicalize(items)[k].key == items[i].key.value && |Canonicalize(items[..i])| == k
  {
    var n := |items| - 1;
    if k < |Canonicalize(items[..n])| {
      i := RowsKeepTheirOrder(items[..n], k);
      assert items[..n][..i] == items[..i];
      assert IsFirst(items[..n], i) ==> IsFirst(items, i);
    } else {
      i := n;
    }
  }
}
