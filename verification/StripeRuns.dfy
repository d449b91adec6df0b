/**
  Whole runs of Stripe deliveries for many tenants (web/lib/billing/stripe.ts:62-72, 105-109, 142-250). Each
  delivery is one transaction; the check that asked Stripe may have read any earlier state of the run, since
  other deliveries commit between it and the transaction.
*/
module StripeRuns {
  import opened Common
  import opened StripeSpec

  /** A delivery whose transaction runs now and whose check read the state after `readAt` transactions. */
  datatype Arrival = Arrival(event: Event, answer: Option<Status>, readAt: nat)

  ghost predicate Run(dbs: seq<Db>, arrivals: seq<Arrival>) {
    && |dbs| == |arrivals| + 1
    && forall i :: 0 <= i < |arrivals| ==> Arrives(dbs, arrivals, i)
  }

  ghost predicate Arrives(dbs: seq<Db>, arrivals: seq<Arrival>, i: nat)
    requires |dbs| == |arrivals| + 1 && i < |arrivals|
  {
    var a := arrivals[i];
    && dbs[i + 1] == Deliver(dbs[i], a.event, a.answer).0
    && a.readAt <= i
    && (a.answer.Some? ==> AsksStripe(dbs[a.readAt], a.event))
  }

  // ----- what one delivery may change -----

  /** No delivery touches a row but its own tenant's. */
  lemma OnlyOneRow(db: Db, e: Event, answer: Option<Status>, u: Tenant)
    requires TenantFor(db, e) != Some(u)
    ensures
      var db' := Deliver(db, e, answer).0;
      (u in db'.plans <==> u in db.plans) && (u in db.plans ==> db'.plans[u] == db.plans[u])
  {
  }

  /** The ended set only grows, by the subscription of the event's own effect. */
  lemma EndedGrows(db: Db, e: Event, answer: Option<Status>)
    ensures
      var db' := Deliver(db, e, answer).0;
      && db.ended <= db'.ended
      && forall s :: s in db'.ended - db.ended ==> EffectOf(e).Some? && EffectOf(e).value.sub == Some(s) && TenantFor(db, e).Some?
  {
  }

  /** A processed id stays processed, and only the event's own id is added. */
  lemma ProcessedGrows(db: Db, e: Event, answer: Option<Status>)
    ensures
      var (db', outcome) := Deliver(db, e, answer);
      db'.processed == if outcome == Held then db.processed else db.processed + {e.id}
  {
  }

  // ----- one tenant per customer -----

  ghost predicate OneTenantPerCustomer(db: Db) {
    forall t, u, c :: Binds(db.plans, t, c) && Binds(db.plans, u, c) ==> t == u
  }

  lemma CustomersStayApart(db: Db, e: Event, answer: Option<Status>)
    requires OneTenantPerCustomer(db)
    ensures OneTenantPerCustomer(Deliver(db, e, answer).0)
  {
    var db' := Deliver(db, e, answer).0;
    forall t: Tenant, u: Tenant, c: Customer | Binds(db'.plans, t, c) && Binds(db'.plans, u, c) ensures t == u {
      if t != u && !Binds(db.plans, t, c) {
        NewBindingIsUnshared(db, e, answer, t, c, u);
        OnlyOneRow(db, e, answer, u);
      } else if t != u && !Binds(db.plans, u, c) {
        NewBindingIsUnshared(db, e, answer, u, c, t);
        OnlyOneRow(db, e, answer, t);
      }
    }
  }

  /** A tenant gets a customer in a delivery only if no other tenant has it. */
  lemma NewBindingIsUnshared(db: Db, e: Event, answer: Option<Status>, t: Tenant, c: Customer, u: Tenant)
    requires Binds(Deliver(db, e, answer).0.plans, t, c) && !Binds(db.plans, t, c)
    requires u != t
    ensures !Binds(db.plans, u, c) && TenantFor(db, e) == Some(t)
  {
  }

  // ----- the event clock -----

  /** `b` is no earlier than `a`; no time at all is earliest. */
  predicate NotBefore(b: Option<int>, a: Option<int>) {
    a.Some? ==> b.Some? && a.value <= b.value
  }

  lemma ClockMovesForward(db: Db, e: Event, answer: Option<Status>, t: Tenant)
    requires t in db.plans
    ensures
      var db' := Deliver(db, e, answer).0;
      t in db'.plans && NotBefore(db'.plans[t].eventAt, db.plans[t].eventAt)
  {
  }

  // ----- held ties -----

  /** A held tie leaves the tenant free and the event unprocessed, so its redelivery is handled again. */
  lemma HeldIsFreeAndRetried(db: Db, e: Event, answer: Option<Status>)
    requires Deliver(db, e, answer).1 == Held
    ensures
      var db' := Deliver(db, e, answer).0;
      && e.id !in db'.processed && TenantFor(db, e).Some?
      && var t := TenantFor(db, e).value;
         t in db'.plans && HeldRow(db'.plans[t]) && db'.plans[t].reconcileAt == e.created
  {
  }

  /** The second of the event that last set the plan is held for Stripe's answer. */
  predicate HeldRow(row: Row) {
    row.plan == Free && row.sub.Some? && row.eventAt.Some? && row.reconcileAt == row.eventAt
  }

  /**
    A held tenant becomes Pro in a delivery only by an entitling answer from Stripe, by a later event, or by an
    event for another subscription.
  */
  lemma OnlyStripeLiftsAHold(db: Db, e: Event, answer: Option<Status>, t: Tenant)
    requires t in db.plans && HeldRow(db.plans[t])
    ensures
      var db' := Deliver(db, e, answer).0;
      t in db'.plans &&
      (db'.plans[t].plan == Pro ==>
         && EffectOf(e).Some?
         && (|| answer in {Some(Active), Some(Trialing), Some(PastDue)}
             || e.created.None? || e.created.value > db.plans[t].eventAt.value
             || EffectOf(e).value.sub != db.plans[t].sub))
  {
  }

  // ----- no plan on an ended subscription -----

  /**
    What Stripe promises of an event: one that grants Pro names its subscription, and a subscription is one
    tenant's.
  */
  ghost predicate Proper(db: Db, e: Event, owner: Sub -> Tenant) {
    var fx, t := EffectOf(e), TenantFor(db, e);
    fx.Some? && t.Some? ==>
      && (fx.value.plan == Pro ==> fx.value.sub.Some?)
      && (fx.value.sub.Some? ==> owner(fx.value.sub.value) == t.value)
  }

  ghost predicate NoProOnEnded(db: Db, owner: Sub -> Tenant) {
    forall t :: t in db.plans ==> RowSound(db, t, owner)
  }

  ghost predicate RowSound(db: Db, t: Tenant, owner: Sub -> Tenant)
    requires t in db.plans
  {
    var row := db.plans[t];
    row.sub.Some? ==> owner(row.sub.value) == t && (row.plan == Pro ==> row.sub.value !in db.ended)
  }

  /**
    The one delivery that makes a tenant Pro on an ended subscription: a tie by an event that is itself free and
    does not end the subscription, after the subscription ended, settled by an entitling answer read before it
    ended. The rule that an ended subscription stays ended looks at the event's own plan only.
  */
  predicate Revives(db: Db, e: Event, answer: Option<Status>) {
    var fx, t := EffectOf(e), TenantFor(db, e);
    && e.id !in db.processed && fx.Some? && t.Some? && !CustomerConflict(db, e, t.value)
    && fx.value.plan == Free && fx.value.sub.Some? && fx.value.sub.value in db.ended
    && IsTie(fx.value, e.created, RowOf(db, t.value))
    && answer in {Some(Active), Some(Trialing), Some(PastDue)}
  }

  lemma OthersStaySound(db: Db, e: Event, answer: Option<Status>, owner: Sub -> Tenant, u: Tenant)
    requires NoProOnEnded(db, owner) && Proper(db, e, owner)
    requires u in Deliver(db, e, answer).0.plans && TenantFor(db, e) != Some(u)
    ensures RowSound(Deliver(db, e, answer).0, u, owner)
  {
  }

  lemma ItsOwnRowStaysSound(db: Db, e: Event, answer: Option<Status>, owner: Sub -> Tenant, t: Tenant)
    requires NoProOnEnded(db, owner) && Proper(db, e, owner)
    requires TenantFor(db, e) == Some(t) && t in Deliver(db, e, answer).0.plans
    ensures RowSound(Deliver(db, e, answer).0, t, owner) <==> !Revives(db, e, answer)
  {
    if t in db.plans { assert RowSound(db, t, owner); }
  }

  /** A delivery keeps every Pro tenant off ended subscriptions exactly when it is not that one. */
  lemma ProNeedsALiveSubscription(db: Db, e: Event, answer: Option<Status>, owner: Sub -> Tenant)
    requires NoProOnEnded(db, owner) && Proper(db, e, owner)
    ensures NoProOnEnded(Deliver(db, e, answer).0, owner) <==> !Revives(db, e, answer)
  {
    var db' := Deliver(db, e, answer).0;
    forall u | u in db'.plans && TenantFor(db, e) != Some(u) ensures RowSound(db', u, owner) {
      OthersStaySound(db, e, answer, owner, u);
    }
    var t := TenantFor(db, e);
    if t.Some? && t.value in db'.plans { ItsOwnRowStaysSound(db, e, answer, owner, t.value); }
    if Revives(db, e, answer) { assert t.value in db'.plans; }
  }

  /** With nothing committed between the check and the transaction, no delivery is that one. */
  lemma AnAtomicCallNeverRevives(db: Db, d: Delivery)
    ensures !Revives(db, d.event, if AsksStripe(db, d.event) then d.answer else None)
  {
  }

  // ----- whole runs -----

  /** What holds between an earlier and a later state of a run. */
  ghost predicate Evolves(a: Db, b: Db) {
    && a.processed <= b.processed && a.ended <= b.ended
    && (OneTenantPerCustomer(a) ==> OneTenantPerCustomer(b))
    && forall t :: t in a.plans ==> t in b.plans && NotBefore(b.plans[t].eventAt, a.plans[t].eventAt)
  }

  lemma DeliveryEvolves(db: Db, e: Event, answer: Option<Status>)
    ensures Evolves(db, Deliver(db, e, answer).0)
  {
    EndedGrows(db, e, answer);
    ProcessedGrows(db, e, answer);
    if OneTenantPerCustomer(db) { CustomersStayApart(db, e, answer); }
    forall t | t in db.plans ensures t in Deliver(db, e, answer).0.plans && NotBefore(Deliver(db, e, answer).0.plans[t].eventAt, db.plans[t].eventAt) {
      ClockMovesForward(db, e, answer, t);
    }
  }

  lemma {:induction false} RunEvolves(dbs: seq<Db>, arrivals: seq<Arrival>, i: nat, j: nat)
    requires Run(dbs, arrivals) && i <= j < |dbs|
    ensures Evolves(dbs[i], dbs[j])
    decreases j
  {
    if i < j {
      RunEvolves(dbs, arrivals, i, j - 1);
      assert Arrives(dbs, arrivals, j - 1);
      DeliveryEvolves(dbs[j - 1], arrivals[j - 1].event, arrivals[j - 1].answer);
    }
  }

  /** Once an id is processed, every later delivery of it changes nothing. */
  lemma ProcessedIsFinal(dbs: seq<Db>, arrivals: seq<Arrival>, i: nat, j: nat)
    requires Run(dbs, arrivals) && i <= j < |arrivals| && arrivals[j].event.id in dbs[i].processed
    ensures dbs[j + 1] == dbs[j]
  {
    RunEvolves(dbs, arrivals, i, j);
    assert Arrives(dbs, arrivals, j);
  }

  ghost predicate ProperRun(dbs: seq<Db>, arrivals: seq<Arrival>, owner: Sub -> Tenant)
    requires Run(dbs, arrivals)
  {
    forall i :: 0 <= i < |arrivals| ==> Proper(dbs[i], arrivals[i].event, owner)
  }

  ghost predicate RevivesAt(dbs: seq<Db>, arrivals: seq<Arrival>, i: nat)
    requires Run(dbs, arrivals) && i < |arrivals|
  {
    Revives(dbs[i], arrivals[i].event, arrivals[i].answer)
  }

  /** Over a whole run, nobody is ever Pro on an ended subscription if and only if no delivery of it revives one. */
  lemma {:induction false} RunsNeedLiveSubscriptions(dbs: seq<Db>, arrivals: seq<Arrival>, owner: Sub -> Tenant)
    requires Run(dbs, arrivals) && ProperRun(dbs, arrivals, owner) && NoProOnEnded(dbs[0], owner)
    ensures (forall i :: 0 <= i < |dbs| ==> NoProOnEnded(dbs[i], owner))
       <==> (forall i :: 0 <= i < |arrivals| ==> !RevivesAt(dbs, arrivals, i))
  {
    if forall i :: 0 <= i < |arrivals| ==> !RevivesAt(dbs, arrivals, i) {
      var i := 0;
      while i < |arrivals|
        invariant 0 <= i <= |arrivals|
        invariant forall k :: 0 <= k <= i ==> NoProOnEnded(dbs[k], owner)
      {
        assert Arrives(dbs, arrivals, i) && !RevivesAt(dbs, arrivals, i);
        ProNeedsALiveSubscription(dbs[i], arrivals[i].event, arrivals[i].answer, owner);
        i := i + 1;
      }
    } else {
      var i :| 0 <= i < |arrivals| && RevivesAt(dbs, arrivals, i);
      if NoProOnEnded(dbs[i], owner) {
        assert Arrives(dbs, arrivals, i);
        ProNeedsALiveSubscription(dbs[i], arrivals[i].event, arrivals[i].answer, owner);
        assert !NoProOnEnded(dbs[i + 1], owner);
      }
    }
  }

  // ----- the race -----

  const CHECKOUT := Event(1, CheckoutCompleted, Some(10), Some(0), None, Some(7), None, None, true)
  const UNPAID := Event(2, SubscriptionUpdated, Some(10), Some(0), None, None, Some(7), Some(Unpaid), false)
  const DELETED := Event(3, SubscriptionDeleted, Some(10), Some(0), None, None, Some(7), None, false)
  const EMPTY := Db(map[], {}, {})

  /**
    A run that ends Pro on an ended subscription: a checkout, an unpaid update of the same second that is held
    because the read failed, its redelivery whose read says active, the deletion in that same second committing
    before the redelivery's transaction.
  */
  lemma ARaceRevivesAnEndedSubscription() returns (dbs: seq<Db>, arrivals: seq<Arrival>)
    ensures Run(dbs, arrivals) && ProperRun(dbs, arrivals, s => 0) && dbs[0] == EMPTY
    ensures var last := dbs[|dbs| - 1];
      0 in last.plans && last.plans[0].plan == Pro && last.plans[0].sub == Some(7) && 7 in last.ended
  {
    arrivals := [Arrival(CHECKOUT, None, 0), Arrival(UNPAID, None, 1), Arrival(DELETED, None, 2), Arrival(UNPAID, Some(Active), 2)];
    var d1 := Deliver(EMPTY, CHECKOUT, None).0;
    var d2 := Deliver(d1, UNPAID, None).0;
    var d3 := Deliver(d2, DELETED, None).0;
    var d4 := Deliver(d3, UNPAID, Some(Active)).0;
    dbs := [EMPTY, d1, d2, d3, d4];
    assert d1.plans[0] == Row(Pro, None, Some(7), Some(10), None, Some(Active));
    assert d2.plans[0] == Row(Free, None, Some(7), Some(10), Some(10), Some(Active)) && 2 !in d2.processed;
    assert AsksStripe(d2, UNPAID);
    assert d3.plans[0] == Row(Free, None, Some(7), Some(10), Some(10), Some(Canceled)) && 7 in d3.ended;
    assert d4.plans[0].plan == Pro;
  }
}
