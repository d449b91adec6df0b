/** The webhook's own steps (web/lib/billing/stripe.ts:69-72, 142-250), proved to compute StripeSpec.Handle. */
module StripeStore {
  import opened Common
  import opened StripeSpec

  class Billing {
    var plans: map<Tenant, Row>
    var ended: set<Sub>
    var processed: set<EventId>

    constructor ()
      ensures State() == Db(map[], {}, {})
    {
      plans, ended, processed := map[], {}, {};
    }

    function State(): Db
      reads this
    {
      Db(plans, ended, processed)
    }

    /** The read-only check: whether to ask Stripe for the subscription's status. */
    method PreCheck(e: Event) returns (ask: bool)
      ensures ask == AsksStripe(State(), e)
    {
      ask := false;
      var fx := EffectOf(e);
      if fx.Some? && !fx.value.ends && fx.value.sub.Some? && e.created.Some? {
        var t := TenantFor(State(), e);
        if fx.value.sub.value !in ended && t.Some? && t.value in plans {
          ask := IsTie(fx.value, e.created, plans[t.value]);
        }
      }
    }

    method InsertIfMissing(t: Tenant)
      modifies `plans
      ensures plans == old(plans)[t := RowOf(old(State()), t)]
    {
      if t !in plans {
        plans := plans[t := NewRow];
      } else {
        assert plans == plans[t := plans[t]];
      }
    }

    /** Links the customer and subscription, sets the plan and the status, and moves the clock forward. */
    method WritePlan(t: Tenant, e: Event, fx: Effect)
      requires t in plans
      modifies `plans
      ensures plans == old(plans)[t := SetPlan(old(plans)[t], e, fx)]
    {
      var row := plans[t];
      row := row.(customer := Either(e.customer, row.customer), sub := Either(fx.sub, row.sub));
      row := row.(plan := fx.plan);
      if fx.status.Some? { row := row.(status := fx.status); }
      if e.created.Some? && (row.eventAt.None? || row.eventAt.value < e.created.value) { row := row.(eventAt := e.created); }
      plans := plans[t := row];
    }

    method FailedPayment(t: Tenant, e: Event) returns (outcome: Outcome)
      modifies `plans
      ensures (State(), outcome) == PaymentFailed(old(State()), t, e)
    {
      if t !in plans || e.subscription.None? || e.subscription != plans[t].sub { return Ignored; }
      if e.subscription.value in ended || Older(e.created, plans[t]) { return Stale; }
      if plans[t].plan != Pro { return Ignored; }
      var row := plans[t].(status := Some(PastDue));
      if e.created.Some? && (row.eventAt.None? || row.eventAt.value < e.created.value) { row := row.(eventAt := e.created); }
      plans := plans[t := row];
      return Applied;
    }

    method RecordEnded(sub: Option<Sub>)
      modifies `ended
      ensures ended == if sub.Some? then old(ended) + {sub.value} else old(ended)
    {
      if sub.Some? { ended := ended + {sub.value}; }
    }

    /** The rules, in their order, on the tenant's locked row. */
    method ApplyRules(t: Tenant, e: Event, eventFx: Effect, answer: Option<Status>) returns (outcome: Outcome)
      modifies this
      ensures (State(), outcome) == ChangePlan(old(State()), t, e, eventFx, answer)
    {
      InsertIfMissing(t);
      var row := plans[t];
      if eventFx.ends { RecordEnded(eventFx.sub); }
      if eventFx.plan == Pro && eventFx.sub.Some? && eventFx.sub.value in ended { return Stale; }
      if eventFx.plan == Free && row.sub.Some? && eventFx.sub.Some? && eventFx.sub != row.sub { return Ignored; }
      var fx, tie := eventFx, IsTie(eventFx, e.created, row);
      var settled := if tie then StatusEffect(answer, eventFx.sub) else None;
      if tie && settled.None? {
        plans := plans[t := row.(plan := Free, reconcileAt := e.created)];
        processed := processed - {e.id};
        return Held;
      }
      if tie {
        plans := plans[t := row.(reconcileAt := None)];
        fx := settled.value;
        if fx.ends { RecordEnded(fx.sub); }
      } else if !fx.ends && Older(e.created, row) {
        return Stale;
      }
      WritePlan(t, e, fx);
      ghost var was := old(plans)[t := row];
      ghost var base := if tie then row.(reconcileAt := None) else row;
      assert plans == was[t := SetPlan(base, e, fx)];
      return if tie then Reconciled else Applied;
    }

    /** The transaction. */
    method Transact(e: Event, answer: Option<Status>) returns (outcome: Outcome)
      modifies this
      ensures (State(), outcome) == Deliver(old(State()), e, answer)
    {
      if e.id in processed { return Duplicate; }
      processed := processed + {e.id};
      var t := TenantFor(State(), e);
      if t.None? || CustomerConflict(State(), e, t.value) { return Ignored; }
      if e.kind.InvoicePaymentFailed? {
        outcome := FailedPayment(t.value, e);
      } else if e.kind.ChargeRefunded? {
        outcome := Applied;
      } else {
        var fx := EffectOf(e);
        if fx.None? { return Ignored; }
        outcome := ApplyRules(t.value, e, fx.value, answer);
      }
    }

    /** `stripe` is what Stripe answers if asked; none when the read fails. */
    method ApplyStripeEvent(e: Event, stripe: Option<Status>) returns (outcome: Outcome)
      modifies this
      ensures (State(), outcome) == Handle(old(State()), Delivery(e, stripe))
    {
      var ask := PreCheck(e);
      outcome := Transact(e, if ask then stripe else None);
    }
  }
}
