/**
  What Stripe events do to the tenants' plans (web/lib/billing/stripe.ts). Stripe delivers events in any
  order and more than once, with whole-second times; the rules here make the outcome depend on the set of
  events delivered. Each delivery is one transaction; the answer read from Stripe for a tie is its parameter.
*/
module StripeSpec {
  import opened Common

  type Tenant = nat
  type Customer = nat
  type Sub = nat
  type EventId = nat

  datatype Plan = Free | Pro

  datatype Status =
    | Active | Trialing | PastDue | Canceled | IncompleteExpired | Unpaid | Incomplete | Paused | Unknown(n: nat)

  datatype Kind =
    | CheckoutCompleted | SubscriptionUpdated | SubscriptionCreated | SubscriptionDeleted
    | InvoicePaymentFailed | ChargeRefunded | OtherKind

  /**
    An event with the fields of its object the code reads. `named` is the tenant the object names
    (client_reference_id, else metadata.tenant_id); `subscription` is the one a checkout or an invoice names;
    `objectId` is the id of a subscription object.
  */
  datatype Event = Event(id: EventId, kind: Kind, created: Option<int>, named: Option<Tenant>,
                         customer: Option<Customer>, subscription: Option<Sub>, objectId: Option<Sub>,
                         status: Option<Status>, subscriptionMode: bool)

  datatype Row = Row(plan: Plan, customer: Option<Customer>, sub: Option<Sub>, eventAt: Option<int>,
                     reconcileAt: Option<int>, status: Option<Status>)

  const NewRow := Row(Free, None, None, None, None, None)

  datatype Db = Db(plans: map<Tenant, Row>, ended: set<Sub>, processed: set<EventId>)

  datatype Effect = Effect(plan: Plan, sub: Option<Sub>, ends: bool, status: Option<Status>)

  datatype Outcome = Applied | Reconciled | Held | Ignored | Stale | Duplicate

  /** What a subscription status means for the plan; nothing for a status the policy does not know. */
  function StatusEffect(status: Option<Status>, sub: Option<Sub>): Option<Effect> {
    match status
    case None => None
    case Some(Active) => Some(Effect(Pro, sub, false, status))
    case Some(Trialing) => Some(Effect(Pro, sub, false, status))
    case Some(PastDue) => Some(Effect(Pro, sub, false, status))
    case Some(Canceled) => Some(Effect(Free, sub, true, status))
    case Some(IncompleteExpired) => Some(Effect(Free, sub, true, status))
    case Some(Unpaid) => Some(Effect(Free, sub, false, status))
    case Some(Incomplete) => Some(Effect(Free, sub, false, status))
    case Some(Paused) => Some(Effect(Free, sub, false, status))
    case Some(Unknown(_)) => None
  }

  /** What an event would do to the plan. */
  function EffectOf(e: Event): Option<Effect> {
    match e.kind
    case CheckoutCompleted => if e.subscriptionMode then Some(Effect(Pro, e.subscription, false, Some(Active))) else None
    case SubscriptionUpdated => StatusEffect(e.status, e.objectId)
    case SubscriptionCreated => StatusEffect(e.status, e.objectId)
    case SubscriptionDeleted => Some(Effect(Free, e.objectId, true, Some(Canceled)))
    case _ => None
  }

  // ----- which tenant an event is for -----

  predicate Binds(plans: map<Tenant, Row>, t: Tenant, c: Customer) {
    t in plans && plans[t].customer == Some(c)
  }

  /** The first tenant a customer is linked to. */
  predicate IsFirst(plans: map<Tenant, Row>, t: Tenant, c: Customer) {
    Binds(plans, t, c) && forall u :: u in plans && Binds(plans, u, c) ==> t <= u
  }

  lemma {:induction false} FirstOf(plans: map<Tenant, Row>, c: Customer, t: Tenant)
    requires Binds(plans, t, c)
    ensures exists u :: IsFirst(plans, u, c)
    decreases t
  {
    if !IsFirst(plans, t, c) {
      var u :| u in plans && Binds(plans, u, c) && u < t;
      FirstOf(plans, c, u);
    }
  }

  function TenantOfCustomer(plans: map<Tenant, Row>, c: Customer): (r: Option<Tenant>)
    ensures r.Some? ==> IsFirst(plans, r.value, c)
    ensures r.None? ==> forall t :: !Binds(plans, t, c)
  {
    if exists t :: t in plans && Binds(plans, t, c) then
      assert exists t :: IsFirst(plans, t, c) by {
        var t :| t in plans && Binds(plans, t, c);
        FirstOf(plans, c, t);
      }
      var t :| t in plans && IsFirst(plans, t, c);
      Some(t)
    else None
  }

  function TenantFor(db: Db, e: Event): Option<Tenant> {
    if e.named.Some? then e.named
    else if e.customer.Some? then TenantOfCustomer(db.plans, e.customer.value)
    else None
  }

  /** Another tenant has the event's customer. */
  predicate CustomerConflict(db: Db, e: Event, t: Tenant) {
    e.customer.Some? && exists u :: u in db.plans && u != t && Binds(db.plans, u, e.customer.value)
  }

  // ----- one delivery -----

  function RowOf(db: Db, t: Tenant): Row {
    if t in db.plans then db.plans[t] else NewRow
  }

  /**
    A non-ending event for the current subscription, created in the same second as the event that last set the
    plan, which would change the plan, or whose second is still held.
  */
  predicate IsTie(fx: Effect, created: Option<int>, row: Row) {
    && !fx.ends && fx.sub.Some? && fx.sub == row.sub
    && created.Some? && created == row.eventAt
    && (fx.plan != row.plan || row.reconcileAt == created)
  }

  function Later(a: Option<int>, b: Option<int>): Option<int> {
    if a.Some? && (b.None? || b.value < a.value) then a else b
  }

  predicate Older(created: Option<int>, row: Row) {
    created.Some? && row.eventAt.Some? && created.value < row.eventAt.value
  }

  function Either<T>(a: Option<T>, b: Option<T>): Option<T> {
    if a.Some? then a else b
  }

  function Ending(ended: set<Sub>, fx: Effect): set<Sub> {
    if fx.ends && fx.sub.Some? then ended + {fx.sub.value} else ended
  }

  /** link, writePlan, the status and the clock. */
  function SetPlan(row: Row, e: Event, fx: Effect): Row {
    Row(fx.plan, Either(e.customer, row.customer), Either(fx.sub, row.sub), Later(e.created, row.eventAt),
        row.reconcileAt, Either(fx.status, row.status))
  }

  /** A failed payment only says past_due, for the current subscription while it is Pro. */
  function PaymentFailed(db: Db, t: Tenant, e: Event): (Db, Outcome) {
    if t !in db.plans || e.subscription.None? || e.subscription != db.plans[t].sub then (db, Ignored) else
    var row := db.plans[t];
    if e.subscription.value in db.ended then (db, Stale) else
    if Older(e.created, row) then (db, Stale) else
    if row.plan != Pro then (db, Ignored) else
    (db.(plans := db.plans[t := row.(status := Some(PastDue), eventAt := Later(e.created, row.eventAt))]), Applied)
  }

  /** A subscription event, on the tenant's locked row. `answer` is Stripe's status for a tie, if one was read. */
  function ChangePlan(db: Db, t: Tenant, e: Event, fx0: Effect, answer: Option<Status>): (Db, Outcome) {
    var row := RowOf(db, t);
    var db1 := db.(plans := db.plans[t := row], ended := Ending(db.ended, fx0));
    if fx0.plan == Pro && fx0.sub.Some? && fx0.sub.value in db1.ended then (db1, Stale) else
    if fx0.plan == Free && row.sub.Some? && fx0.sub.Some? && fx0.sub != row.sub then (db1, Ignored) else
    if IsTie(fx0, e.created, row) then
      match StatusEffect(answer, fx0.sub)
      case None =>
        (db1.(plans := db1.plans[t := row.(plan := Free, reconcileAt := e.created)], processed := db1.processed - {e.id}), Held)
      case Some(fx) =>
        (db1.(plans := db1.plans[t := SetPlan(row.(reconcileAt := None), e, fx)], ended := Ending(db1.ended, fx)), Reconciled)
    else if !fx0.ends && Older(e.created, row) then (db1, Stale)
    else (db1.(plans := db1.plans[t := SetPlan(row, e, fx0)]), Applied)
  }

  /** One delivery of an event. */
  function Deliver(db: Db, e: Event, answer: Option<Status>): (Db, Outcome) {
    if e.id in db.processed then (db, Duplicate) else
    var db1 := db.(processed := db.processed + {e.id});
    match TenantFor(db1, e)
    case None => (db1, Ignored)
    case Some(t) =>
      if CustomerConflict(db1, e, t) then (db1, Ignored) else
      if e.kind.InvoicePaymentFailed? then PaymentFailed(db1, t, e) else
      if e.kind.ChargeRefunded? then (db1, Applied) else
      match EffectOf(e)
      case None => (db1, Ignored)
      case Some(fx) => ChangePlan(db1, t, e, fx, answer)
  }

  /** Whether the check before the transaction reads the subscription's status from Stripe. */
  predicate AsksStripe(db: Db, e: Event) {
    var fx := EffectOf(e);
    && fx.Some? && !fx.value.ends && fx.value.sub.Some? && e.created.Some?
    && fx.value.sub.value !in db.ended
    && TenantFor(db, e).Some? && TenantFor(db, e).value in db.plans
    && IsTie(fx.value, e.created, db.plans[TenantFor(db, e).value])
  }

  /** A delivery: an event, and Stripe's status for its subscription if the code asks for it and gets one. */
  datatype Delivery = Delivery(event: Event, answer: Option<Status>)

  /** The whole call with nothing between its check and its transaction. */
  function Handle(db: Db, d: Delivery): (Db, Outcome) {
    Deliver(db, d.event, if AsksStripe(db, d.event) then d.answer else None)
  }

  function HandleAll(db: Db, ds: seq<Delivery>): Db
    decreases |ds|
  {
    if ds == [] then db else HandleAll(Handle(db, ds[0]).0, ds[1..])
  }

  // ----- order does not matter -----

  predicate Ends(e: Event) {
    EffectOf(e).Some? && EffectOf(e).value.ends
  }

  /** A non-ending event that sets the plan. */
  predicate Sets(e: Event) {
    EffectOf(e).Some? && !EffectOf(e).value.ends
  }

  /** A checkout or subscription event of subscription s, timed, with a status the policy knows. */
  predicate Concerns(e: Event, s: Sub) {
    && e.created.Some?
    && e.kind in {CheckoutCompleted, SubscriptionUpdated, SubscriptionCreated, SubscriptionDeleted}
    && (EffectOf(e).Some? ==> EffectOf(e).value.sub == Some(s))
    && (e.kind in {SubscriptionUpdated, SubscriptionCreated} ==> EffectOf(e).Some?)
  }

  /** One that names tenant t. */
  predicate OfSubscription(e: Event, t: Tenant, s: Sub) {
    e.named == Some(t) && Concerns(e, s)
  }

  /** One that finds tenant t: it names t, or names nobody and carries a customer that is linked to t. */
  predicate Reaches(db: Db, e: Event, t: Tenant, s: Sub) {
    && Concerns(e, s)
    && (e.named == Some(t) || (e.named.None? && e.customer.Some? && Binds(db.plans, t, e.customer.value)))
  }

  function EventsOf(ds: seq<Delivery>): set<Event> {
    set i | 0 <= i < |ds| :: ds[i].event
  }

  /** One id per event, and no two plan-setting events in one second. */
  ghost predicate Distinct(es: set<Event>) {
    && (forall a, b :: a in es && b in es && a.id == b.id ==> a == b)
    && (forall a, b :: a in es && b in es && Sets(a) && Sets(b) && a.created == b.created ==> a == b)
  }

  ghost predicate IsLatest(es: set<Event>, e: Event) {
    && e in es && Sets(e) && e.created.Some?
    && forall f :: f in es && Sets(f) && f.created.Some? ==> f.created.value <= e.created.value
  }

  /**
    The meaning of a set of events, with no mention of order: free if any of them ended the subscription,
    else the plan of the latest-created one, else free.
  */
  ghost predicate Means(es: set<Event>, plan: Plan) {
    if exists e :: e in es && Ends(e) then plan == Free
    else if exists e :: IsLatest(es, e) then exists e :: IsLatest(es, e) && EffectOf(e).value.plan == plan
    else plan == Free
  }

  /** Nothing of these events has reached the tenant yet, and no other tenant has their customers. */
  ghost predicate FreshFor(db: Db, t: Tenant, s: Sub, es: set<Event>) {
    && RowOf(db, t) == NewRow && s !in db.ended
    && (forall e :: e in es ==> e.id !in db.processed)
    && NoOtherBinds(db, t, es)
  }

  ghost predicate NoOtherBinds(db: Db, t: Tenant, es: set<Event>) {
    forall e, u :: e in es && e.customer.Some? && u != t ==> !Binds(db.plans, u, e.customer.value)
  }

  /** Exactly the events `seen` are marked processed, and no other tenant has a customer of theirs. */
  ghost predicate Remembers(db: Db, t: Tenant, all: set<Event>, seen: set<Event>) {
    && seen <= all
    && (forall e :: e in all ==> (e.id in db.processed <==> e in seen))
    && NoOtherBinds(db, t, all)
  }

  /** t's row and the ended set say what the events `seen` mean. */
  ghost predicate Says(db: Db, t: Tenant, s: Sub, seen: set<Event>) {
    var row := RowOf(db, t);
    && (row.sub.None? || row.sub == Some(s))
    && row.reconcileAt.None?
    && (s in db.ended <==> exists e :: e in seen && Ends(e))
    && Means(seen, row.plan)
    && (s in db.ended ==> row.plan == Free)
    && (s !in db.ended ==>
          if exists e :: e in seen && Sets(e)
          then exists e :: IsLatest(seen, e) && row.eventAt == e.created && row.plan == EffectOf(e).value.plan
          else row == NewRow)
  }

  /** The tables after exactly the events `seen`, whatever their order and repetition. */
  ghost predicate Reflects(db: Db, t: Tenant, s: Sub, all: set<Event>, seen: set<Event>) {
    Remembers(db, t, all, seen) && Says(db, t, s, seen)
  }

  /** With no id or tenant in doubt, a delivery is a change of t's plan or nothing at all. */
  lemma DeliverHere(db: Db, t: Tenant, s: Sub, all: set<Event>, e: Event, answer: Option<Status>)
    requires NoOtherBinds(db, t, all) && e in all && Reaches(db, e, t, s) && e.id !in db.processed
    ensures
      var db1 := db.(processed := db.processed + {e.id});
      Deliver(db, e, answer) ==
        if EffectOf(e).None? then (db1, Ignored) else ChangePlan(db1, t, e, EffectOf(e).value, answer)
  {
  }

  /** A change of t's row gives no other tenant a customer. */
  lemma OthersUnbound(db: Db, db': Db, t: Tenant, all: set<Event>)
    requires NoOtherBinds(db, t, all)
    requires forall u :: u != t ==> (u in db'.plans <==> u in db.plans)
    requires forall u :: u != t && u in db.plans ==> db'.plans[u] == db.plans[u]
    ensures NoOtherBinds(db', t, all)
  {
    forall e, u | e in all && e.customer.Some? && u != t
      ensures !Binds(db'.plans, u, e.customer.value)
    {
      assert !Binds(db.plans, u, e.customer.value);
    }
  }

  lemma NoTie(db: Db, t: Tenant, s: Sub, all: set<Event>, seen: set<Event>, e: Event)
    requires Reflects(db, t, s, all, seen) && Distinct(all) && e in all && e !in seen && Reaches(db, e, t, s)
    requires EffectOf(e).Some?
    ensures !IsTie(EffectOf(e).value, e.created, RowOf(db, t)) || (s in db.ended && EffectOf(e).value.plan == Pro)
  {
  }

  lemma LatestStays(seen: set<Event>, e: Event, l: Event)
    requires IsLatest(seen, l) && (!Sets(e) || e.created.None? || e.created.value <= l.created.value)
    ensures IsLatest(seen + {e}, l)
  {
  }

  lemma NewLatest(seen: set<Event>, e: Event)
    requires Sets(e) && e.created.Some?
    requires (forall f :: f in seen ==> !Sets(f)) || exists l :: IsLatest(seen, l) && l.created.value < e.created.value
    ensures IsLatest(seen + {e}, e)
  {
  }

  /** Whatever it says of the plan, a delivered event is remembered. */
  lemma Remembered(db: Db, t: Tenant, s: Sub, all: set<Event>, seen: set<Event>, e: Event, answer: Option<Status>)
    requires Reflects(db, t, s, all, seen) && Distinct(all) && e in all && e !in seen && Reaches(db, e, t, s)
    ensures Remembers(Deliver(db, e, answer).0, t, all, seen + {e})
  {
    DeliverHere(db, t, s, all, e, answer);
    if EffectOf(e).Some? { NoTie(db, t, s, all, seen, e); }
    var db' := Deliver(db, e, answer).0;
    assert db'.processed == db.processed + {e.id};
    OthersUnbound(db, db', t, all);
  }

  /** An event that ends the subscription, or any event once it has ended, leaves the plan free. */
  lemma SaysEnded(db: Db, t: Tenant, s: Sub, all: set<Event>, seen: set<Event>, e: Event, answer: Option<Status>)
    requires Reflects(db, t, s, all, seen) && Distinct(all) && e in all && e !in seen && Reaches(db, e, t, s)
    requires EffectOf(e).Some? && (Ends(e) || s in db.ended)
    ensures Says(Deliver(db, e, answer).0, t, s, seen + {e})
  {
    DeliverHere(db, t, s, all, e, answer);
    NoTie(db, t, s, all, seen, e);
    assert exists f :: f in seen + {e} && Ends(f) by {
      if Ends(e) { assert e in seen + {e}; } else {
        var f :| f in seen && Ends(f);
        assert f in seen + {e};
      }
    }
  }

  /** The first event that sets the plan sets it. */
  lemma SaysFirst(db: Db, t: Tenant, s: Sub, all: set<Event>, seen: set<Event>, e: Event, answer: Option<Status>)
    requires Reflects(db, t, s, all, seen) && Distinct(all) && e in all && e !in seen && Reaches(db, e, t, s)
    requires Sets(e) && s !in db.ended && forall f :: f in seen ==> !Sets(f)
    ensures Says(Deliver(db, e, answer).0, t, s, seen + {e})
  {
    DeliverHere(db, t, s, all, e, answer);
    NoTie(db, t, s, all, seen, e);
    assert !(exists f :: f in seen + {e} && Ends(f));
    assert e in seen + {e} && Sets(e);
    NewLatest(seen, e);
  }

  /** A later one sets it again, and an earlier one is stale. */
  lemma SaysAnother(db: Db, t: Tenant, s: Sub, all: set<Event>, seen: set<Event>, e: Event, answer: Option<Status>, l: Event)
    requires Reflects(db, t, s, all, seen) && Distinct(all) && e in all && e !in seen && Reaches(db, e, t, s)
    requires Sets(e) && s !in db.ended && IsLatest(seen, l)
    requires RowOf(db, t).eventAt == l.created && RowOf(db, t).plan == EffectOf(l).value.plan
    ensures Says(Deliver(db, e, answer).0, t, s, seen + {e})
  {
    DeliverHere(db, t, s, all, e, answer);
    NoTie(db, t, s, all, seen, e);
    assert !(exists f :: f in seen + {e} && Ends(f));
    assert e in seen + {e} && Sets(e);
    assert e.created != l.created by { assert l in all; }
    if e.created.value < l.created.value { LatestStays(seen, e, l); } else { NewLatest(seen, e); }
  }

  lemma SaysSetting(db: Db, t: Tenant, s: Sub, all: set<Event>, seen: set<Event>, e: Event, answer: Option<Status>)
    requires Reflects(db, t, s, all, seen) && Distinct(all) && e in all && e !in seen && Reaches(db, e, t, s)
    requires Sets(e) && s !in db.ended
    ensures Says(Deliver(db, e, answer).0, t, s, seen + {e})
  {
    if exists f :: f in seen && Sets(f) {
      var l :| IsLatest(seen, l) && RowOf(db, t).eventAt == l.created && RowOf(db, t).plan == EffectOf(l).value.plan;
      SaysAnother(db, t, s, all, seen, e, answer, l);
    } else {
      SaysFirst(db, t, s, all, seen, e, answer);
    }
  }

  /** An event that means nothing for the plan is only remembered. */
  lemma SaysNothing(db: Db, t: Tenant, s: Sub, all: set<Event>, seen: set<Event>, e: Event, answer: Option<Status>)
    requires Reflects(db, t, s, all, seen) && Distinct(all) && e in all && e !in seen && Reaches(db, e, t, s)
    requires EffectOf(e).None?
    ensures Says(Deliver(db, e, answer).0, t, s, seen + {e})
  {
    DeliverHere(db, t, s, all, e, answer);
    forall f | IsLatest(seen, f) ensures IsLatest(seen + {e}, f) { LatestStays(seen, e, f); }
    forall f | IsLatest(seen + {e}, f) ensures IsLatest(seen, f) {}
    assert forall f :: f in seen + {e} && Ends(f) ==> f in seen;
    assert forall f :: f in seen + {e} && Sets(f) ==> f in seen;
    if exists f :: f in seen && Ends(f) {
      var f :| f in seen && Ends(f);
      assert f in seen + {e};
    }
    if exists f :: f in seen && Sets(f) {
      var f :| f in seen && Sets(f);
      assert f in seen + {e};
    }
  }

  /** One delivery moves the tables from the events seen to those and this one; a repeat changes nothing. */
  lemma DeliveryReflects(db: Db, t: Tenant, s: Sub, all: set<Event>, seen: set<Event>, e: Event, answer: Option<Status>)
    requires Reflects(db, t, s, all, seen) && Distinct(all) && e in all && Reaches(db, e, t, s)
    ensures Reflects(Deliver(db, e, answer).0, t, s, all, seen + {e})
  {
    if e in seen {
      assert seen + {e} == seen;
      return;
    }
    Remembered(db, t, s, all, seen, e, answer);
    if EffectOf(e).None? {
      SaysNothing(db, t, s, all, seen, e, answer);
    } else if Ends(e) || s in db.ended {
      SaysEnded(db, t, s, all, seen, e, answer);
    } else {
      SaysSetting(db, t, s, all, seen, e, answer);
    }
  }

  lemma {:induction false} AllReflect(db: Db, t: Tenant, s: Sub, all: set<Event>, seen: set<Event>, ds: seq<Delivery>)
    requires Reflects(db, t, s, all, seen) && Distinct(all)
    requires forall e :: e in all ==> OfSubscription(e, t, s)
    requires EventsOf(ds) <= all
    ensures Reflects(HandleAll(db, ds), t, s, all, seen + EventsOf(ds))
    decreases |ds|
  {
    if ds == [] {
      assert seen + EventsOf(ds) == seen;
    } else {
      var e, rest := ds[0].event, ds[1..];
      assert e in EventsOf(ds);
      DeliveryReflects(db, t, s, all, seen, e, if AsksStripe(db, e) then ds[0].answer else None);
      assert EventsOf(ds) == {e} + EventsOf(rest) by {
        forall f | f in EventsOf(ds) ensures f in {e} + EventsOf(rest) {
          var i :| 0 <= i < |ds| && ds[i].event == f;
          if i > 0 { assert rest[i - 1].event == f; }
        }
        forall f | f in EventsOf(rest) ensures f in EventsOf(ds) {
          var i :| 0 <= i < |rest| && rest[i].event == f;
          assert ds[i + 1].event == f;
        }
      }
      AllReflect(Handle(db, ds[0]).0, t, s, all, seen + {e}, rest);
      assert (seen + {e}) + EventsOf(rest) == seen + EventsOf(ds);
    }
  }

  lemma FreshReflects(db: Db, t: Tenant, s: Sub, all: set<Event>)
    requires FreshFor(db, t, s, all)
    ensures Reflects(db, t, s, all, {})
  {
  }

  /**
    From a fresh row, any deliveries of a subscription's events, in any order and with any repetition, leave
    the plan the set of those events means.
  */
  lemma PlanIsMeaning(db: Db, t: Tenant, s: Sub, ds: seq<Delivery>)
    requires FreshFor(db, t, s, EventsOf(ds)) && Distinct(EventsOf(ds))
    requires forall e :: e in EventsOf(ds) ==> OfSubscription(e, t, s)
    ensures Means(EventsOf(ds), RowOf(HandleAll(db, ds), t).plan)
  {
    var all := EventsOf(ds);
    FreshReflects(db, t, s, all);
    AllReflect(db, t, s, all, {}, ds);
    assert {} + all == all;
  }

  lemma MeaningIsUnique(es: set<Event>, p: Plan, q: Plan)
    requires Distinct(es) && Means(es, p) && Means(es, q)
    ensures p == q
  {
  }

  /** Two deliveries of the same events end on the same plan, however they are ordered or repeated. */
  lemma OrderDoesNotMatter(db: Db, t: Tenant, s: Sub, ds: seq<Delivery>, ds': seq<Delivery>)
    requires EventsOf(ds) == EventsOf(ds')
    requires FreshFor(db, t, s, EventsOf(ds)) && Distinct(EventsOf(ds))
    requires forall e :: e in EventsOf(ds) ==> OfSubscription(e, t, s)
    ensures RowOf(HandleAll(db, ds), t).plan == RowOf(HandleAll(db, ds'), t).plan
  {
    PlanIsMeaning(db, t, s, ds);
    PlanIsMeaning(db, t, s, ds');
    MeaningIsUnique(EventsOf(ds), RowOf(HandleAll(db, ds), t).plan, RowOf(HandleAll(db, ds'), t).plan);
  }
}
