/**
  Events that carry only a customer (web/lib/billing/stripe.ts:62-67, 142-172): such an event finds its tenant by a
  link made before it is first delivered, and is otherwise marked processed and lost. So the order of deliveries
  matters, and this is how: the plan is what the events that were not lost mean.
*/
module StripeCustomers {
  import opened Common
  import opened StripeSpec

  /** An event of subscription s with its customer c, that names tenant t or nobody. */
  predicate OfCustomer(e: Event, t: Tenant, s: Sub, c: Customer) {
    Concerns(e, s) && e.customer == Some(c) && (e.named == Some(t) || e.named.None?)
  }

  /** The deliveries link the customer: some event that names its tenant changes its plan. */
  predicate Links(seen: set<Event>) {
    exists e :: e in seen && EffectOf(e).Some?
  }

  /** The events of `ds` that are not lost, `dropped` having been lost before and the customer being linked or not. */
  function KeptFrom(ds: seq<Delivery>, linked: bool, dropped: set<Event>): set<Event> {
    if ds == [] then {}
    else
      var e := ds[0].event;
      if e.named.None? && (!linked || e in dropped) then KeptFrom(ds[1..], linked, dropped + {e})
      else {e} + KeptFrom(ds[1..], linked || EffectOf(e).Some?, dropped)
  }

  /** The events that are not lost. */
  function Kept(ds: seq<Delivery>): set<Event> { KeptFrom(ds, false, {}) }

  lemma {:induction false} DroppedStays(ds: seq<Delivery>, linked: bool, dropped: set<Event>, e: Event)
    requires e in dropped && e.named.None?
    ensures e !in KeptFrom(ds, linked, dropped)
  {
    if ds != [] {
      var d := ds[0].event;
      if d.named.None? && (!linked || d in dropped) {
        DroppedStays(ds[1..], linked, dropped + {d}, e);
      } else {
        DroppedStays(ds[1..], linked || EffectOf(d).Some?, dropped, e);
      }
    }
  }

  lemma {:induction false} KeptAreDelivered(ds: seq<Delivery>, linked: bool, dropped: set<Event>)
    ensures KeptFrom(ds, linked, dropped) <= EventsOf(ds)
  {
    if ds != [] {
      var e := ds[0].event;
      KeptAreDelivered(ds[1..], linked, dropped + {e});
      KeptAreDelivered(ds[1..], linked || EffectOf(e).Some?, dropped);
      FirstAndRest(ds);
    }
  }

  lemma FirstAndRest(ds: seq<Delivery>)
    requires ds != []
    ensures ds[0].event in EventsOf(ds) && EventsOf(ds[1..]) <= EventsOf(ds)
  {
    forall f | f in EventsOf(ds[1..]) ensures f in EventsOf(ds) {
      var i :| 0 <= i < |ds[1..]| && ds[1..][i].event == f;
      assert ds[i + 1].event == f;
    }
  }

  /** The customer is linked to t once an event that changes t's plan was seen, to nobody before, and to nobody else ever. */
  ghost predicate LinkMatches(db: Db, t: Tenant, c: Customer, seen: set<Event>) {
    && (if Links(seen) then Binds(db.plans, t, c) else !Binds(db.plans, t, c))
    && forall u :: u != t ==> !Binds(db.plans, u, c)
  }

  /** What a kept event does to the link. */
  lemma LinkFollows(db: Db, t: Tenant, s: Sub, c: Customer, all: set<Event>, seen: set<Event>, e: Event,
                    answer: Option<Status>)
    requires Reflects(db, t, s, all, seen) && Distinct(all) && e in all && e !in seen && Reaches(db, e, t, s)
    requires e.customer == Some(c) && LinkMatches(db, t, c, seen)
    ensures LinkMatches(Deliver(db, e, answer).0, t, c, seen + {e})
  {
    DeliverHere(db, t, s, all, e, answer);
    LinksNext(seen, e);
    if EffectOf(e).Some? {
      NoTie(db, t, s, all, seen, e);
      if !Links(seen) { FirstEffect(db, t, s, all, seen); }
    }
  }

  lemma LinksNext(seen: set<Event>, e: Event)
    ensures Links(seen + {e}) <==> Links(seen) || EffectOf(e).Some?
  {
    if Links(seen) {
      var f :| f in seen && EffectOf(f).Some?;
      assert f in seen + {e};
    }
    if EffectOf(e).Some? { assert e in seen + {e}; }
  }

  lemma FirstEffect(db: Db, t: Tenant, s: Sub, all: set<Event>, seen: set<Event>)
    requires Reflects(db, t, s, all, seen) && !Links(seen)
    ensures RowOf(db, t) == NewRow && s !in db.ended
  {
  }

  /** A lost event, delivered for the first time or again, changes nothing but that it is marked processed. */
  lemma LostChangesNothing(db: Db, t: Tenant, s: Sub, c: Customer, all: set<Event>, seen: set<Event>, e: Event,
                           answer: Option<Status>)
    requires Reflects(db, t, s, all, seen) && LinkMatches(db, t, c, seen) && OfCustomer(e, t, s, c) && e.named.None?
    requires !Links(seen) || e.id in db.processed
    requires forall f :: f in all ==> f.id != e.id
    ensures
      var db' := Deliver(db, e, answer).0;
      && Reflects(db', t, s, all, seen) && LinkMatches(db', t, c, seen)
      && db'.processed == db.processed + {e.id}
  {
    var db' := Deliver(db, e, answer).0;
    if e.id in db.processed {
      assert db.processed + {e.id} == db.processed && db' == db;
    } else {
      assert TenantFor(db.(processed := db.processed + {e.id}), e).None?;
      assert db' == db.(processed := db.processed + {e.id});
    }
  }

  /** How the tables stand with the deliveries still to come: `dropped` are the events lost so far. */
  ghost predicate Stands(db: Db, t: Tenant, s: Sub, c: Customer, ds: seq<Delivery>, seen: set<Event>, dropped: set<Event>) {
    && Reflects(db, t, s, seen + KeptFrom(ds, Links(seen), dropped), seen)
    && LinkMatches(db, t, c, seen)
    && seen !! dropped
    && (forall e :: e in dropped ==> e.named.None? && e.id in db.processed)
  }

  /** All events there are, delivered already or not. */
  ghost predicate Universe(all: set<Event>, t: Tenant, s: Sub, c: Customer) {
    Distinct(all) && forall e :: e in all ==> OfCustomer(e, t, s, c)
  }

  lemma Part(all: set<Event>, part: set<Event>, t: Tenant, s: Sub, c: Customer)
    requires Universe(all, t, s, c) && part <= all
    ensures Universe(part, t, s, c)
  {
  }

  lemma DropStep(db: Db, t: Tenant, s: Sub, c: Customer, ds: seq<Delivery>, seen: set<Event>, dropped: set<Event>,
                 all: set<Event>, answer: Option<Status>)
    requires Universe(all, t, s, c) && seen + dropped + EventsOf(ds) <= all && ds != [] && Stands(db, t, s, c, ds, seen, dropped)
    requires var e := ds[0].event; e.named.None? && (!Links(seen) || e in dropped) && e !in seen
    ensures Stands(Deliver(db, ds[0].event, answer).0, t, s, c, ds[1..], seen, dropped + {ds[0].event})
  {
    var e := ds[0].event;
    var kept := KeptFrom(ds[1..], Links(seen), dropped + {e});
    FirstAndRest(ds);
    KeptAreDelivered(ds[1..], Links(seen), dropped + {e});
    DroppedStays(ds[1..], Links(seen), dropped + {e}, e);
    forall f | f in seen + kept ensures f.id != e.id {
      assert f in all && e in all && f != e;
    }
    LostChangesNothing(db, t, s, c, seen + kept, seen, e, answer);
  }

  lemma KeepStep(db: Db, t: Tenant, s: Sub, c: Customer, ds: seq<Delivery>, seen: set<Event>, dropped: set<Event>,
                 all: set<Event>, answer: Option<Status>)
    requires Universe(all, t, s, c) && seen + dropped + EventsOf(ds) <= all && ds != [] && Stands(db, t, s, c, ds, seen, dropped)
    requires var e := ds[0].event; !(e.named.None? && (!Links(seen) || e in dropped))
    ensures Stands(Deliver(db, ds[0].event, answer).0, t, s, c, ds[1..], seen + {ds[0].event}, dropped)
  {
    var e := ds[0].event;
    var kept := KeptFrom(ds[1..], Links(seen) || EffectOf(e).Some?, dropped);
    FirstAndRest(ds);
    KeptAreDelivered(ds[1..], Links(seen) || EffectOf(e).Some?, dropped);
    LinksNext(seen, e);
    var part := seen + ({e} + kept);
    Part(all, part, t, s, c);
    assert OfCustomer(e, t, s, c) && Reaches(db, e, t, s);
    DeliveryReflects(db, t, s, part, seen, e, answer);
    assert seen + {e} + kept == part;
    if e in seen {
      assert seen + {e} == seen && Deliver(db, e, answer).0 == db;
    } else {
      LinkFollows(db, t, s, c, part, seen, e, answer);
    }
    ProcessedStays(db, e, answer, dropped, part, seen, t, s);
  }

  lemma ProcessedStays(db: Db, e: Event, answer: Option<Status>, dropped: set<Event>, all: set<Event>,
                       seen: set<Event>, t: Tenant, s: Sub)
    requires Reflects(db, t, s, all, seen) && Distinct(all) && e in all && Reaches(db, e, t, s)
    requires forall d :: d in dropped ==> d.id in db.processed
    ensures forall d :: d in dropped ==> d.id in Deliver(db, e, answer).0.processed
  {
    if e !in seen {
      DeliverHere(db, t, s, all, e, answer);
      if EffectOf(e).Some? { NoTie(db, t, s, all, seen, e); }
    }
  }

  lemma {:induction false} AllStand(db: Db, t: Tenant, s: Sub, c: Customer, ds: seq<Delivery>, seen: set<Event>,
                                    dropped: set<Event>, all: set<Event>)
    requires Universe(all, t, s, c) && seen + dropped + EventsOf(ds) <= all && Stands(db, t, s, c, ds, seen, dropped)
    requires !Links(seen) ==> forall e :: e in seen ==> e.named.Some?
    ensures
      var kept := seen + KeptFrom(ds, Links(seen), dropped);
      Reflects(HandleAll(db, ds), t, s, kept, kept)
    decreases |ds|
  {
    if ds == [] {
      assert seen + {} == seen;
    } else {
      var e := ds[0].event;
      var answer := if AsksStripe(db, e) then ds[0].answer else None;
      FirstAndRest(ds);
      if e.named.None? && (!Links(seen) || e in dropped) {
        DropStep(db, t, s, c, ds, seen, dropped, all, answer);
        AllStand(Deliver(db, e, answer).0, t, s, c, ds[1..], seen, dropped + {e}, all);
      } else {
        KeepStep(db, t, s, c, ds, seen, dropped, all, answer);
        LinksNext(seen, e);
        AllStand(Deliver(db, e, answer).0, t, s, c, ds[1..], seen + {e}, dropped, all);
        assert seen + {e} + KeptFrom(ds[1..], Links(seen) || EffectOf(e).Some?, dropped) == seen + KeptFrom(ds, Links(seen), dropped);
      }
    }
  }

  /** The plan a set of events means. */
  ghost function Meaning(es: set<Event>): (plan: Plan)
    requires Distinct(es)
    ensures Means(es, plan)
  {
    if (forall e :: e in es ==> !Ends(e)) && exists e :: IsLatest(es, e) then
      var e :| IsLatest(es, e);
      EffectOf(e).value.plan
    else Free
  }

  /**
    From a fresh row, any deliveries of a customer's events, in any order and with any repetition, leave the plan that
    the events not lost mean.
  */
  lemma PlanIsMeaningOfKept(db: Db, t: Tenant, s: Sub, c: Customer, ds: seq<Delivery>)
    requires FreshFor(db, t, s, EventsOf(ds)) && Universe(EventsOf(ds), t, s, c)
    ensures Universe(Kept(ds), t, s, c) && RowOf(HandleAll(db, ds), t).plan == Meaning(Kept(ds))
  {
    KeptAreDelivered(ds, false, {});
    Part(EventsOf(ds), Kept(ds), t, s, c);
    if ds != [] {
      var all := EventsOf(ds);
      FirstAndRest(ds);
      assert NoOtherBinds(db, t, all) && ds[0].event in all;
      assert {} + Kept(ds) == Kept(ds) && !Links({});
      AllStand(db, t, s, c, ds, {}, {}, all);
      MeaningIsUnique(Kept(ds), RowOf(HandleAll(db, ds), t).plan, Meaning(Kept(ds)));
    }
  }

  // ----- which events are lost -----

  /** An event that names its tenant and changes its plan: it links the customer. */
  predicate Linker(e: Event) { e.named.Some? && EffectOf(e).Some? }

  /** The customer was linked by some delivery before the i-th. */
  ghost predicate LinkedBefore(ds: seq<Delivery>, i: nat)
    requires i <= |ds|
  {
    exists j :: 0 <= j < i && Linker(ds[j].event)
  }

  /** The i-th delivery is the first of the event. */
  ghost predicate FirstAt(ds: seq<Delivery>, e: Event, i: nat) {
    i < |ds| && ds[i].event == e && forall j :: 0 <= j < i ==> ds[j].event != e
  }

  /** First delivered at i, with the customer linked and `dropped` lost before all of `ds`, the event is not lost. */
  ghost predicate NotLostAt(ds: seq<Delivery>, linked: bool, dropped: set<Event>, e: Event, i: nat) {
    FirstAt(ds, e, i) && (e.named.Some? || (e !in dropped && (linked || LinkedBefore(ds, i))))
  }

  ghost predicate NotLost(ds: seq<Delivery>, linked: bool, dropped: set<Event>, e: Event) {
    exists i: nat :: NotLostAt(ds, linked, dropped, e, i)
  }

  lemma LinkedBeforeNext(ds: seq<Delivery>, i: nat)
    requires ds != [] && i <= |ds| - 1
    ensures LinkedBefore(ds, i + 1) <==> Linker(ds[0].event) || LinkedBefore(ds[1..], i)
  {
    if LinkedBefore(ds[1..], i) {
      var j :| 0 <= j < i && Linker(ds[1..][j].event);
      assert Linker(ds[j + 1].event);
    }
    if LinkedBefore(ds, i + 1) {
      var j :| 0 <= j < i + 1 && Linker(ds[j].event);
      if j > 0 { assert Linker(ds[1..][j - 1].event); }
    }
  }

  lemma FirstAtNext(ds: seq<Delivery>, e: Event, i: nat)
    requires ds != [] && ds[0].event != e
    ensures FirstAt(ds, e, i + 1) <==> FirstAt(ds[1..], e, i)
  {
    if FirstAt(ds, e, i + 1) {
      forall j | 0 <= j < i ensures ds[1..][j].event != e { assert ds[j + 1].event != e; }
    }
    if FirstAt(ds[1..], e, i) {
      forall j | 0 <= j < i + 1 ensures ds[j].event != e {
        if j > 0 { assert ds[1..][j - 1].event != e; }
      }
    }
  }

  /** What the head of the deliveries does to those after it. */
  lemma NotLostNext(ds: seq<Delivery>, linked: bool, dropped: set<Event>, e: Event, i: nat)
    requires ds != [] && ds[0].event != e
    ensures
      var d := ds[0].event;
      NotLostAt(ds, linked, dropped, e, i + 1) <==> NotLostAt(ds[1..], linked || Linker(d), dropped, e, i)
    ensures e.named.None? ==> NotLostAt(ds[1..], linked, dropped + {ds[0].event}, e, i) == NotLostAt(ds[1..], linked, dropped, e, i)
  {
    FirstAtNext(ds, e, i);
    if i < |ds| { if i <= |ds| - 1 { LinkedBeforeNext(ds, i); } }
  }

  lemma {:induction false} KeptFromExactly(ds: seq<Delivery>, linked: bool, dropped: set<Event>, e: Event)
    ensures e in KeptFrom(ds, linked, dropped) <==> NotLost(ds, linked, dropped, e)
  {
    if ds != [] {
      var d := ds[0].event;
      if d.named.None? && (!linked || d in dropped) {
        KeptFromExactly(ds[1..], linked, dropped + {d}, e);
        HeadDropped(ds, linked, dropped, e);
      } else {
        KeptFromExactly(ds[1..], linked || EffectOf(d).Some?, dropped, e);
        HeadKept(ds, linked, dropped, e);
      }
    }
  }

  lemma HeadDropped(ds: seq<Delivery>, linked: bool, dropped: set<Event>, e: Event)
    requires ds != [] && ds[0].event.named.None? && (!linked || ds[0].event in dropped)
    ensures NotLost(ds, linked, dropped, e) <==> NotLost(ds[1..], linked, dropped + {ds[0].event}, e)
  {
    if ds[0].event == e {
      forall i: nat ensures !NotLostAt(ds, linked, dropped, e, i) {}
      forall i: nat ensures !NotLostAt(ds[1..], linked, dropped + {e}, e, i) {}
    } else {
      Shifted(ds, linked, linked, dropped, dropped + {ds[0].event}, e);
    }
  }

  lemma HeadKept(ds: seq<Delivery>, linked: bool, dropped: set<Event>, e: Event)
    requires ds != [] && !(ds[0].event.named.None? && (!linked || ds[0].event in dropped))
    ensures NotLost(ds, linked, dropped, e)
       <==> e == ds[0].event || NotLost(ds[1..], linked || EffectOf(ds[0].event).Some?, dropped, e)
  {
    if ds[0].event == e {
      assert NotLostAt(ds, linked, dropped, e, 0);
    } else {
      Shifted(ds, linked, linked || EffectOf(ds[0].event).Some?, dropped, dropped, e);
    }
  }

  lemma Shifted(ds: seq<Delivery>, linked: bool, linked': bool, dropped: set<Event>, dropped': set<Event>, e: Event)
    requires ds != [] && ds[0].event != e && linked' == (linked || Linker(ds[0].event)) && (e in dropped' <==> e in dropped)
    ensures NotLost(ds, linked, dropped, e) <==> NotLost(ds[1..], linked', dropped', e)
  {
    if i: nat :| NotLostAt(ds, linked, dropped, e, i) {
      NotLostNext(ds, linked, dropped, e, i - 1);
      assert NotLostAt(ds[1..], linked', dropped', e, i - 1);
    }
    if i: nat :| NotLostAt(ds[1..], linked', dropped', e, i) {
      NotLostNext(ds, linked, dropped, e, i);
      assert NotLostAt(ds, linked, dropped, e, i + 1);
    }
  }

  /** An event is not lost if and only if it names its tenant, or is first delivered once another has linked the customer. */
  lemma KeptExactly(ds: seq<Delivery>, e: Event)
    ensures e in Kept(ds) <==> exists i: nat :: FirstAt(ds, e, i) && (e.named.Some? || LinkedBefore(ds, i))
  {
    KeptFromExactly(ds, false, {}, e);
    if i: nat :| NotLostAt(ds, false, {}, e, i) { assert FirstAt(ds, e, i) && (e.named.Some? || LinkedBefore(ds, i)); }
    if i: nat :| FirstAt(ds, e, i) && (e.named.Some? || LinkedBefore(ds, i)) { assert NotLostAt(ds, false, {}, e, i); }
  }

  lemma {:induction false} FirstIndex(ds: seq<Delivery>, e: Event, n: nat) returns (i: nat)
    requires n < |ds| && ds[n].event == e
    ensures FirstAt(ds, e, i) && i <= n
  {
    if m :| 0 <= m < n && ds[m].event == e { i := FirstIndex(ds, e, m); } else { i := n; }
  }

  /** Nothing is lost if and only if every event that carries only the customer comes once the customer is linked. */
  lemma NothingIsLostExactly(ds: seq<Delivery>)
    ensures Kept(ds) == EventsOf(ds) <==> forall i :: 0 <= i < |ds| && ds[i].event.named.None? ==> LinkedBefore(ds, i)
  {
    KeptAreDelivered(ds, false, {});
    if Kept(ds) == EventsOf(ds) {
      forall i | 0 <= i < |ds| && ds[i].event.named.None? ensures LinkedBefore(ds, i) {
        assert ds[i].event in EventsOf(ds);
        KeptExactly(ds, ds[i].event);
        var m: nat :| FirstAt(ds, ds[i].event, m) && LinkedBefore(ds, m);
        assert m <= i;
      }
    }
    if forall i :: 0 <= i < |ds| && ds[i].event.named.None? ==> LinkedBefore(ds, i) {
      forall e | e in EventsOf(ds) ensures e in Kept(ds) {
        var n :| 0 <= n < |ds| && ds[n].event == e;
        var i := FirstIndex(ds, e, n);
        KeptExactly(ds, e);
      }
    }
  }

  // ----- when the order does not matter -----

  /** Those of the events that name their tenant. */
  function Naming(es: set<Event>): set<Event> { set e | e in es && e.named.Some? }

  /** However the events are ordered and repeated, the plan is the same. */
  ghost predicate AnyOrderAlike(db: Db, t: Tenant, es: set<Event>) {
    forall ds: seq<Delivery>, ds': seq<Delivery> :: EventsOf(ds) == es && EventsOf(ds') == es ==>
      RowOf(HandleAll(db, ds), t).plan == RowOf(HandleAll(db, ds'), t).plan
  }

  lemma SubsetDistinct(es: set<Event>, part: set<Event>)
    requires Distinct(es) && part <= es
    ensures Distinct(part)
  {
  }

  /** The event, added to those that name their tenant, changes what they mean. */
  ghost predicate Matters(es: set<Event>, e: Event)
    requires Distinct(es) && e in es
  {
    SubsetDistinct(es, Naming(es));
    SubsetDistinct(es, Naming(es) + {e});
    Meaning(Naming(es) + {e}) != Meaning(Naming(es))
  }

  /** None that carries only the customer does. */
  ghost predicate NoneMatters(es: set<Event>)
    requires Distinct(es)
  {
    forall e :: e in es && e.named.None? ==> !Matters(es, e)
  }

  /** What the naming events mean, more of them mean, if none of those matters alone. */
  lemma MoreMeanTheSame(es: set<Event>, kept: set<Event>)
    requires Distinct(es) && Naming(es) <= kept <= es && Links(Naming(es)) && NoneMatters(es)
    requires forall e :: e in es && EffectOf(e).Some? ==> e.created.Some?
    ensures Distinct(kept) && Meaning(kept) == Meaning(Naming(es))
  {
    var naming := Naming(es);
    SubsetDistinct(es, kept);
    SubsetDistinct(es, naming);
    if e :| e in kept && Ends(e) {
      EndedMeansFree(es, kept, e);
    } else {
      LatestDecides(es, kept);
    }
  }

  lemma EndedMeansFree(es: set<Event>, kept: set<Event>, e: Event)
    requires Distinct(es) && Naming(es) <= kept <= es && NoneMatters(es) && e in kept && Ends(e)
    ensures Distinct(kept) && Meaning(kept) == Free && Meaning(Naming(es)) == Free
  {
    SubsetDistinct(es, kept);
    SubsetDistinct(es, Naming(es));
    if e.named.None? {
      assert !Matters(es, e) && e in Naming(es) + {e};
    } else {
      assert e in Naming(es);
    }
  }

  lemma {:induction false} LatestExists(part: set<Event>) returns (l: Event)
    requires part != {} && forall e :: e in part ==> Sets(e) && e.created.Some?
    ensures l in part && forall f :: f in part ==> f.created.value <= l.created.value
    decreases part
  {
    var x :| x in part;
    if part == {x} {
      l := x;
    } else {
      var y := LatestExists(part - {x});
      l := if y.created.value < x.created.value then x else y;
      forall f | f in part ensures f.created.value <= l.created.value {
        if f != x { assert f in part - {x}; }
      }
    }
  }

  lemma LatestOf(es: set<Event>) returns (l: Event)
    requires (exists e :: e in es && Sets(e)) && forall e :: e in es && EffectOf(e).Some? ==> e.created.Some?
    ensures IsLatest(es, l)
  {
    var part := set e | e in es && Sets(e);
    var x :| x in es && Sets(x);
    assert x in part;
    l := LatestExists(part);
    forall f | f in es && Sets(f) && f.created.Some? ensures f.created.value <= l.created.value { assert f in part; }
  }

  lemma LatestIsTheOne(es: set<Event>, l: Event)
    requires Distinct(es) && IsLatest(es, l) && forall e :: e in es ==> !Ends(e)
    ensures Meaning(es) == EffectOf(l).value.plan
  {
  }

  lemma ANamingLatest(es: set<Event>, kept: set<Event>, l: Event)
    requires Distinct(es) && Naming(es) <= kept <= es && IsLatest(kept, l) && l.named.Some? && forall e :: e in kept ==> !Ends(e)
    ensures Distinct(Naming(es)) && Meaning(Naming(es)) == EffectOf(l).value.plan
  {
    SubsetDistinct(es, Naming(es));
    assert IsLatest(Naming(es), l);
    LatestIsTheOne(Naming(es), l);
  }

  lemma AnotherLatest(es: set<Event>, kept: set<Event>, l: Event)
    requires Distinct(es) && Naming(es) <= kept <= es && IsLatest(kept, l) && l.named.None? && forall e :: e in kept ==> !Ends(e)
    ensures Distinct(Naming(es) + {l}) && Meaning(Naming(es) + {l}) == EffectOf(l).value.plan
  {
    var more := Naming(es) + {l};
    SubsetDistinct(es, more);
    assert IsLatest(more, l);
    LatestIsTheOne(more, l);
  }

  lemma LatestDecides(es: set<Event>, kept: set<Event>)
    requires Distinct(es) && Naming(es) <= kept <= es && Links(Naming(es)) && NoneMatters(es)
    requires forall e :: e in es && EffectOf(e).Some? ==> e.created.Some?
    requires forall e :: e in kept ==> !Ends(e)
    ensures Distinct(kept) && Meaning(kept) == Meaning(Naming(es))
  {
    SubsetDistinct(es, kept);
    var x :| x in Naming(es) && EffectOf(x).Some?;
    assert Sets(x);
    var l := LatestOf(kept);
    LatestIsTheOne(kept, l);
    if l.named.Some? {
      ANamingLatest(es, kept, l);
    } else {
      AnotherLatest(es, kept, l);
      assert !Matters(es, l);
    }
  }

  /** Without an event that links it, the customer's other events are all lost, and nothing changes the plan. */
  lemma NothingLinks(ds: seq<Delivery>, es: set<Event>)
    requires EventsOf(ds) == es && Distinct(es) && !Links(Naming(es))
    ensures Kept(ds) == Naming(es) && Meaning(Naming(es)) == Free
  {
    forall j | 0 <= j < |ds| ensures !Linker(ds[j].event) {
      assert ds[j].event in es && (ds[j].event.named.Some? ==> ds[j].event in Naming(es));
    }
    assert forall i :: 0 <= i <= |ds| ==> !LinkedBefore(ds, i);
    KeptIncludesNaming(ds);
    KeptAreDelivered(ds, false, {});
    forall e | e in Kept(ds) ensures e in Naming(es) { KeptExactly(ds, e); }
    forall e | e in Naming(es) ensures !Ends(e) && !Sets(e) {}
  }

  lemma KeptIncludesNaming(ds: seq<Delivery>)
    ensures Naming(EventsOf(ds)) <= Kept(ds)
  {
    forall e | e in Naming(EventsOf(ds)) ensures e in Kept(ds) {
      var n :| 0 <= n < |ds| && ds[n].event == e;
      var i := FirstIndex(ds, e, n);
      KeptExactly(ds, e);
    }
  }

  // ----- orders that lose all, or all but one -----

  lemma {:induction false} Listing(es: set<Event>) returns (ds: seq<Delivery>)
    ensures EventsOf(ds) == es
    decreases es
  {
    if es == {} {
      ds := [];
    } else {
      var e :| e in es;
      var rest := Listing(es - {e});
      ds := rest + [Delivery(e, None)];
      EventsOfMore(rest, [Delivery(e, None)]);
      EventsOfOne(e);
    }
  }

  lemma EventsOfOne(e: Event)
    ensures EventsOf([Delivery(e, None)]) == {e}
  {
    assert [Delivery(e, None)][0].event == e;
  }

  lemma EventsOfMore(x: seq<Delivery>, y: seq<Delivery>)
    ensures EventsOf(x + y) == EventsOf(x) + EventsOf(y)
  {
    forall e | e in EventsOf(x) ensures e in EventsOf(x + y) {
      var i :| 0 <= i < |x| && x[i].event == e;
      assert (x + y)[i].event == e;
    }
    forall e | e in EventsOf(y) ensures e in EventsOf(x + y) {
      var i :| 0 <= i < |y| && y[i].event == e;
      assert (x + y)[|x| + i].event == e;
    }
  }

  /** Delivered before any event that names the tenant, the customer's events are lost; after them all they are not. */
  lemma LostAndKept(lost: seq<Delivery>, naming: seq<Delivery>, kept: seq<Delivery>)
    requires forall e :: e in EventsOf(lost) + EventsOf(kept) ==> e.named.None?
    requires forall e :: e in EventsOf(naming) ==> e.named.Some?
    requires Links(EventsOf(naming)) && EventsOf(lost) !! EventsOf(kept)
    ensures Kept(lost + naming + kept) == EventsOf(naming) + EventsOf(kept)
  {
    var ds := lost + naming + kept;
    EventsOfMore(lost, naming);
    EventsOfMore(lost + naming, kept);
    KeptAreDelivered(ds, false, {});
    assert lost + (naming + kept) == ds;
    forall e | e in EventsOf(lost) ensures e !in Kept(ds) { LostFirst(lost, naming + kept, e); }
    forall e | e in EventsOf(naming) ensures e in Kept(ds) { KeptIncludesNaming(ds); }
    forall e | e in EventsOf(kept) ensures e in Kept(ds) { KeptLast(lost + naming, kept, e); }
  }

  lemma LostFirst(lost: seq<Delivery>, more: seq<Delivery>, e: Event)
    requires e in EventsOf(lost) && forall f :: f in EventsOf(lost) ==> f.named.None?
    ensures e !in Kept(lost + more)
  {
    var ds := lost + more;
    var n :| 0 <= n < |lost| && lost[n].event == e;
    assert ds[n].event == e;
    forall j | 0 <= j < |lost| ensures !Linker(ds[j].event) { assert lost[j].event in EventsOf(lost); }
    forall i: nat | FirstAt(ds, e, i) ensures i <= n && !LinkedBefore(ds, i) {}
    KeptExactly(ds, e);
  }

  lemma KeptLast(before: seq<Delivery>, kept: seq<Delivery>, e: Event)
    requires e in EventsOf(kept) && e !in EventsOf(before)
    requires exists f :: f in EventsOf(before) && Linker(f)
    ensures e in Kept(before + kept)
  {
    var ds := before + kept;
    var n :| 0 <= n < |kept| && kept[n].event == e;
    assert ds[|before| + n].event == e;
    var i := FirstIndex(ds, e, |before| + n);
    forall k | 0 <= k < |before| ensures ds[k].event != e { assert before[k].event in EventsOf(before); }
    var f :| f in EventsOf(before) && Linker(f);
    var j :| 0 <= j < |before| && before[j].event == f;
    assert Linker(ds[j].event) && LinkedBefore(ds, i);
    KeptExactly(ds, e);
  }

  /** One event that matters: two orders, one that loses it and one that does not. */
  lemma OneThatMatters(es: set<Event>, e: Event) returns (ds: seq<Delivery>, ds': seq<Delivery>)
    requires e in es && e.named.None? && Links(Naming(es))
    ensures EventsOf(ds) == es && EventsOf(ds') == es
    ensures Kept(ds) == Naming(es) && Kept(ds') == Naming(es) + {e}
  {
    var others := es - Naming(es) - {e};
    var x := Listing(others);
    var naming := Listing(Naming(es));
    var y := [Delivery(e, None)];
    EventsOfOne(e);
    EventsOfMore(x, y);
    EventsOfMore(x + y, naming);
    EventsOfMore(x + y + naming, []);
    ds := x + y + naming + [];
    LostAndKept(x + y, naming, []);
    assert es == others + {e} + Naming(es);
    EventsOfMore(x, naming);
    EventsOfMore(x + naming, y);
    ds' := x + naming + y;
    LostAndKept(x, naming, y);
  }

  lemma OneOrder(db: Db, t: Tenant, s: Sub, c: Customer, ds: seq<Delivery>)
    requires FreshFor(db, t, s, EventsOf(ds)) && Universe(EventsOf(ds), t, s, c)
    requires !Links(Naming(EventsOf(ds))) || NoneMatters(EventsOf(ds))
    ensures Distinct(Naming(EventsOf(ds))) && RowOf(HandleAll(db, ds), t).plan == Meaning(Naming(EventsOf(ds)))
  {
    var es := EventsOf(ds);
    PlanIsMeaningOfKept(db, t, s, c, ds);
    if Links(Naming(es)) {
      KeptIncludesNaming(ds);
      KeptAreDelivered(ds, false, {});
      MoreMeanTheSame(es, Kept(ds));
    } else {
      NothingLinks(ds, es);
    }
  }

  lemma TwoOrders(db: Db, t: Tenant, s: Sub, c: Customer, es: set<Event>, e: Event)
    requires FreshFor(db, t, s, es) && Universe(es, t, s, c) && Links(Naming(es)) && e in es && e.named.None?
    requires Matters(es, e)
    ensures !AnyOrderAlike(db, t, es)
  {
    SubsetDistinct(es, Naming(es));
    SubsetDistinct(es, Naming(es) + {e});
    var ds, ds' := OneThatMatters(es, e);
    assert RowOf(HandleAll(db, ds), t).plan == Meaning(Naming(es)) by { PlanIsMeaningOfKept(db, t, s, c, ds); }
    assert RowOf(HandleAll(db, ds'), t).plan == Meaning(Naming(es) + {e}) by { PlanIsMeaningOfKept(db, t, s, c, ds'); }
  }

  lemma AllOrders(db: Db, t: Tenant, s: Sub, c: Customer, es: set<Event>)
    requires FreshFor(db, t, s, es) && Universe(es, t, s, c) && (!Links(Naming(es)) || NoneMatters(es))
    ensures AnyOrderAlike(db, t, es)
  {
    SubsetDistinct(es, Naming(es));
    forall ds: seq<Delivery> | EventsOf(ds) == es ensures RowOf(HandleAll(db, ds), t).plan == Meaning(Naming(es)) {
      OneOrder(db, t, s, c, ds);
    }
  }

  /**
    The order of a customer's events never matters, if and only if none of those that name the tenant changes its plan,
    or none of those that carry only the customer would, alone, change what the naming ones mean.
  */
  lemma OrderDoesNotMatterExactly(db: Db, t: Tenant, s: Sub, c: Customer, es: set<Event>)
    requires FreshFor(db, t, s, es) && Universe(es, t, s, c)
    ensures AnyOrderAlike(db, t, es) <==> !Links(Naming(es)) || NoneMatters(es)
  {
    if !Links(Naming(es)) || NoneMatters(es) {
      AllOrders(db, t, s, c, es);
    } else {
      var e :| e in es && e.named.None? && Matters(es, e);
      TwoOrders(db, t, s, c, es, e);
    }
  }

  // ----- two events whose order matters -----

  /** A checkout that names tenant 0 and customer 5, and a later update to unpaid that carries only the customer. */
  const CHECKOUT := Delivery(Event(1, CheckoutCompleted, Some(10), Some(0), Some(5), Some(7), None, None, true), None)
  const UNPAID := Delivery(Event(2, SubscriptionUpdated, Some(20), None, Some(5), None, Some(7), Some(Unpaid), false), None)
  const EMPTY := Db(map[], {}, {})

  const PAID := Db(map[0 := Row(Pro, Some(5), Some(7), Some(10), None, Some(Active))], {}, {1})

  lemma CheckoutLinks(processed: set<EventId>)
    requires 1 !in processed
    ensures Handle(EMPTY.(processed := processed), CHECKOUT).0 == PAID.(processed := processed + {1})
  {
  }

  lemma UnpaidFindsItsTenant()
    ensures RowOf(Handle(PAID, UNPAID).0, 0).plan == Free
  {
    assert Binds(PAID.plans, 0, 5);
    assert TenantFor(PAID.(processed := {1, 2}), UNPAID.event) == Some(0);
    assert {1} + {2} == {1, 2};
  }

  lemma UnpaidIsLost()
    ensures Handle(EMPTY, UNPAID).0 == EMPTY.(processed := {2})
  {
    assert TenantFor(EMPTY.(processed := {2}), UNPAID.event) == None;
    assert {} + {2} == {2};
  }

  lemma Both(db: Db, x: Delivery, y: Delivery)
    ensures HandleAll(db, [x, y]) == Handle(Handle(db, x).0, y).0
  {
    assert [x, y][1..] == [y] && [y][1..] == [];
    var db' := Handle(db, x).0;
    assert HandleAll(Handle(db', y).0, []) == Handle(db', y).0;
    assert HandleAll(db', [y]) == Handle(db', y).0;
  }

  lemma KeptOfOne(y: Delivery, linked: bool, dropped: set<Event>)
    ensures KeptFrom([y], linked, dropped) == if y.event.named.None? && (!linked || y.event in dropped) then {} else {y.event}
  {
    assert [y][1..] == [];
  }

  lemma KeptOfTwo(x: Delivery, y: Delivery)
    ensures Kept([x, y]) ==
      if x.event.named.None? then (if y.event.named.None? then {} else {y.event})
      else {x.event} + if y.event.named.None? && EffectOf(x.event).None? then {} else {y.event}
  {
    assert [x, y][1..] == [y];
    KeptOfOne(y, false, {} + {x.event});
    KeptOfOne(y, false || EffectOf(x.event).Some?, {});
  }

  /** In the order they were created the tenant ends Free; in the other the update is lost, and the tenant stays Pro. */
  lemma ACustomerEventCanBeLost()
    ensures RowOf(HandleAll(EMPTY, [CHECKOUT, UNPAID]), 0).plan == Free && Kept([CHECKOUT, UNPAID]) == {CHECKOUT.event, UNPAID.event}
    ensures RowOf(HandleAll(EMPTY, [UNPAID, CHECKOUT]), 0).plan == Pro && Kept([UNPAID, CHECKOUT]) == {CHECKOUT.event}
  {
    Both(EMPTY, CHECKOUT, UNPAID);
    Both(EMPTY, UNPAID, CHECKOUT);
    CheckoutLinks({});
    CheckoutLinks({2});
    UnpaidFindsItsTenant();
    UnpaidIsLost();
    KeptOfTwo(CHECKOUT, UNPAID);
    KeptOfTwo(UNPAID, CHECKOUT);
    assert {} + {1} == {1};
  }
}
