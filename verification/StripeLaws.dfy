/**
  What one Stripe delivery does to the rows (web/lib/billing/stripe.ts:60-100, 130-250), said of the event's own fields
  and of Stripe's status words: which tenant it is for, what each status means, what a failed payment says, and what
  changes nothing.
*/
module StripeLaws {
  import opened Common
  import opened StripeSpec

  /** The event is for t: it names t, or it names nobody and t is the first that has its customer. */
  ghost predicate IsFor(db: Db, e: Event, t: Tenant) {
    if e.named.Some? then e.named.value == t
    else && e.customer.Some? && t in db.plans && db.plans[t].customer == e.customer
         && forall u :: u in db.plans && db.plans[u].customer == e.customer ==> t <= u
  }

  /** A tenant other than t has the event's customer. */
  ghost predicate Contested(db: Db, e: Event, t: Tenant) {
    e.customer.Some? && exists u :: u in db.plans && u != t && db.plans[u].customer == e.customer
  }

  /** A delivery that comes to the rules: a new event, for t and for nobody else. */
  ghost predicate Reaches(db: Db, e: Event, t: Tenant) {
    e.id !in db.processed && IsFor(db, e, t) && !Contested(db, e, t)
  }

  lemma TheTenant(db: Db, e: Event, t: Tenant)
    ensures TenantFor(db, e) == Some(t) <==> IsFor(db, e, t)
    ensures CustomerConflict(db, e, t) <==> Contested(db, e, t)
  {
    assert forall u :: Binds(db.plans, u, if e.customer.Some? then e.customer.value else 0) ==> u in db.plans;
    if e.named.None? && e.customer.Some? {
      var c := e.customer.value;
      assert forall u :: u in db.plans && db.plans[u].customer == e.customer <==> Binds(db.plans, u, c);
    }
  }

  function LaterOf(created: Option<int>, at: Option<int>): Option<int> {
    match (created, at)
    case (None, _) => at
    case (_, None) => created
    case (Some(x), Some(y)) => Some(if x < y then y else x)
  }

  predicate IsOlder(e: Event, row: Row) {
    match (e.created, row.eventAt)
    case (Some(x), Some(y)) => x < y
    case _ => false
  }

  // ----- a failed payment -----

  /** The payment failed for the subscription t is Pro on now, as far as anything later than it says. */
  ghost predicate FailedFor(db: Db, e: Event, t: Tenant) {
    && Reaches(db, e, t) && t in db.plans && db.plans[t].plan == Pro
    && e.subscription.Some? && db.plans[t].sub == e.subscription && e.subscription.value !in db.ended
    && !IsOlder(e, db.plans[t])
  }

  /**
    A failed payment never changes a plan: it says past_due on exactly the row that is Pro on the subscription it names,
    not ended, unless something later is known of it, and writes nothing else.
  */
  lemma AFailedPaymentKeepsThePlan(db: Db, e: Event, answer: Option<Status>)
    requires e.kind.InvoicePaymentFailed?
    ensures
      var (db', outcome) := Deliver(db, e, answer);
      && db'.plans.Keys == db.plans.Keys && db'.ended == db.ended && db'.processed == db.processed + {e.id}
      && (outcome == Applied <==> exists t :: FailedFor(db, e, t))
      && forall t :: t in db.plans ==>
           var row, row' := db.plans[t], db'.plans[t];
           && row'.plan == row.plan && row'.customer == row.customer && row'.sub == row.sub && row'.reconcileAt == row.reconcileAt
           && row'.status == (if FailedFor(db, e, t) then Some(PastDue) else row.status)
           && row'.eventAt == (if FailedFor(db, e, t) then LaterOf(e.created, row.eventAt) else row.eventAt)
  {
    forall t: Tenant ensures TenantFor(db, e) == Some(t) <==> IsFor(db, e, t)
      ensures CustomerConflict(db, e, t) <==> Contested(db, e, t)
    {
      TheTenant(db, e, t);
    }
    if TenantFor(db, e).Some? {
      var t := TenantFor(db, e).value;
      assert FailedFor(db, e, t) <==> Deliver(db, e, answer).1 == Applied;
    }
  }

  /** A refund is recorded, and an event of no known kind not even that: neither changes a row or an ended subscription. */
  lemma OtherEventsChangeNothing(db: Db, e: Event, answer: Option<Status>)
    requires e.kind.ChargeRefunded? || e.kind.OtherKind?
    ensures
      var (db', outcome) := Deliver(db, e, answer);
      && db' == db.(processed := db.processed + {e.id})
      && (outcome == Applied <==> e.kind.ChargeRefunded? && exists t :: Reaches(db, e, t))
      && (outcome == Duplicate <==> e.id in db.processed)
  {
    forall t: Tenant ensures TenantFor(db, e) == Some(t) <==> IsFor(db, e, t)
      ensures CustomerConflict(db, e, t) <==> Contested(db, e, t)
    {
      TheTenant(db, e, t);
    }
    if e.id in db.processed { assert db.processed + {e.id} == db.processed; }
    if TenantFor(db, e).Some? {
      var t := TenantFor(db, e).value;
      assert Reaches(db, e, t) <==> e.id !in db.processed && !CustomerConflict(db, e, t);
    }
  }

  // ----- a subscription event -----

  /** The status an event says: of a checkout it is active, of a deletion canceled. */
  function Says(e: Event): Option<Status> {
    match e.kind
    case CheckoutCompleted => if e.subscriptionMode then Some(Active) else None
    case SubscriptionUpdated => e.status
    case SubscriptionCreated => e.status
    case SubscriptionDeleted => Some(Canceled)
    case _ => None
  }

  /** The subscription it says it of. */
  function About(e: Event): Option<Sub> {
    if e.kind == CheckoutCompleted then e.subscription else e.objectId
  }

  predicate Entitles(s: Status) { s == Active || s == Trialing || s == PastDue }
  predicate EndsIt(s: Status) { s == Canceled || s == IncompleteExpired }
  predicate Suspends(s: Status) { s == Unpaid || s == Incomplete || s == Paused }
  predicate IsKnown(s: Option<Status>) { s.Some? && (Entitles(s.value) || EndsIt(s.value) || Suspends(s.value)) }

  /** The row a subscription event finds: its tenant's, or a new free one. */
  function Found(db: Db, t: Tenant): Row {
    if t in db.plans then db.plans[t] else Row(Free, None, None, None, None, None)
  }

  /** The row says the status: Pro if it entitles, else Free; linked to the event's customer and subscription. */
  predicate Takes(row: Row, row': Row, e: Event, s: Status) {
    && row'.plan == (if Entitles(s) then Pro else Free) && row'.status == Some(s)
    && row'.customer == (if e.customer.Some? then e.customer else row.customer)
    && row'.sub == (if About(e).Some? then About(e) else row.sub)
    && row'.eventAt == LaterOf(e.created, row.eventAt)
  }

  /** Only t's row is new or different. */
  predicate OnlyRow(db: Db, db': Db, t: Tenant) {
    && db'.plans.Keys == db.plans.Keys + {t}
    && forall u :: u in db.plans && u != t ==> db'.plans[u] == db.plans[u]
  }

  /** The event would change, or its second has left unsettled, a plan set in the very second it was created. */
  predicate SameSecond(e: Event, row: Row, s: Status) {
    && !EndsIt(s) && About(e).Some? && About(e) == row.sub && e.created.Some? && e.created == row.eventAt
    && ((row.plan == Pro <==> !Entitles(s)) || row.reconcileAt == e.created)
  }

  /** An entitling event of a subscription that has ended, or a free one of a subscription the tenant is not on. */
  predicate Overruled(db: Db, e: Event, row: Row, s: Status) {
    if Entitles(s) then About(e).Some? && About(e).value in db.ended
    else About(e).Some? && row.sub.Some? && About(e) != row.sub
  }

  lemma EffectSays(e: Event)
    ensures EffectOf(e).Some? <==> IsKnown(Says(e))
    ensures EffectOf(e).Some? ==>
      EffectOf(e).value == Effect(if Entitles(Says(e).value) then Pro else Free, About(e), EndsIt(Says(e).value), Says(e))
  {
  }

  lemma AnswerSays(answer: Option<Status>, sub: Option<Sub>)
    ensures StatusEffect(answer, sub).Some? <==> IsKnown(answer)
    ensures IsKnown(answer) ==>
      StatusEffect(answer, sub) == Some(Effect(if Entitles(answer.value) then Pro else Free, sub, EndsIt(answer.value), answer))
  {
  }

  /** Tied with what set the plan, and not overruled; old, and neither. */
  predicate Tied(db: Db, e: Event, row: Row, s: Status) {
    !Overruled(db, e, row, s) && SameSecond(e, row, s)
  }

  predicate Past(db: Db, e: Event, row: Row, s: Status) {
    !Overruled(db, e, row, s) && !SameSecond(e, row, s) && !EndsIt(s) && IsOlder(e, row)
  }

  lemma HowItIsAnswered(db: Db, e: Event, answer: Option<Status>, t: Tenant)
    requires Reaches(db, e, t) && IsKnown(Says(e))
    ensures
      var outcome := Deliver(db, e, answer).1;
      var s, row := Says(e).value, Found(db, t);
      && (outcome == Reconciled <==> Tied(db, e, row, s) && IsKnown(answer))
      && (outcome == Held <==> Tied(db, e, row, s) && !IsKnown(answer))
      && (outcome == Applied <==> !Overruled(db, e, row, s) && !Tied(db, e, row, s) && !Past(db, e, row, s))
      && (outcome == Stale <==> (Overruled(db, e, row, s) && Entitles(s)) || Past(db, e, row, s))
      && (outcome == Ignored <==> Overruled(db, e, row, s) && !Entitles(s))
  {
    TheTenant(db, e, t);
    EffectSays(e);
    AnswerSays(answer, About(e));
    Delivered(db, e, answer, t);
  }

  lemma OnlyItsRow(db: Db, e: Event, answer: Option<Status>, t: Tenant)
    requires Reaches(db, e, t) && IsKnown(Says(e))
    ensures OnlyRow(db, Deliver(db, e, answer).0, t)
  {
    TheTenant(db, e, t);
    EffectSays(e);
    Delivered(db, e, answer, t);
  }

  lemma WhatItWrites(db: Db, e: Event, answer: Option<Status>, t: Tenant)
    requires Reaches(db, e, t) && IsKnown(Says(e)) && t in Deliver(db, e, answer).0.plans
    ensures
      var outcome, row, row' := Deliver(db, e, answer).1, Found(db, t), Deliver(db, e, answer).0.plans[t];
      && (outcome == Applied ==> Takes(row, row', e, Says(e).value) && row'.reconcileAt == row.reconcileAt)
      && (outcome == Reconciled ==> IsKnown(answer) && Takes(row, row', e, answer.value) && row'.reconcileAt == None)
      && (outcome == Held ==> row' == Row(Free, row.customer, row.sub, row.eventAt, e.created, row.status))
      && (outcome in {Stale, Ignored} ==> row' == row)
  {
    TheTenant(db, e, t);
    EffectSays(e);
    AnswerSays(answer, About(e));
    Delivered(db, e, answer, t);
  }

  lemma WhatItRecords(db: Db, e: Event, answer: Option<Status>, t: Tenant)
    requires Reaches(db, e, t) && IsKnown(Says(e))
    ensures
      var (db', outcome) := Deliver(db, e, answer);
      var s := Says(e).value;
      var ended := if EndsIt(s) && About(e).Some? then db.ended + {About(e).value} else db.ended;
      && db'.processed == (if outcome == Held then db.processed else db.processed + {e.id})
      && (outcome == Reconciled ==> About(e).Some? && IsKnown(answer))
      && db'.ended == (if outcome == Reconciled && EndsIt(answer.value) then ended + {About(e).value} else ended)
  {
    TheTenant(db, e, t);
    EffectSays(e);
    AnswerSays(answer, About(e));
    Delivered(db, e, answer, t);
    if Held == Deliver(db, e, answer).1 { assert db.processed + {e.id} - {e.id} == db.processed; }
  }

  /**
    A subscription event takes effect by the status it says, or for one second's tie by the status Stripe answers; with
    no answer the plan is withdrawn and the event left to be delivered again. It changes nothing else when it is
    overruled or old, and every end is recorded.
  */
  lemma ASubscriptionEventSetsThePlan(db: Db, e: Event, answer: Option<Status>, t: Tenant)
    requires Reaches(db, e, t) && IsKnown(Says(e))
    ensures
      var (db', outcome) := Deliver(db, e, answer);
      var s, row := Says(e).value, Found(db, t);
      var ended := if EndsIt(s) && About(e).Some? then db.ended + {About(e).value} else db.ended;
      var tied, past, overruled := Tied(db, e, row, s), Past(db, e, row, s), Overruled(db, e, row, s);
      && OnlyRow(db, db', t)
      && (outcome == Reconciled <==> tied && IsKnown(answer)) && (outcome == Held <==> tied && !IsKnown(answer))
      && (outcome == Stale <==> (overruled && Entitles(s)) || past) && (outcome == Ignored <==> overruled && !Entitles(s))
      && (outcome == Applied <==> !overruled && !tied && !past)
      && (outcome == Applied ==> Takes(row, db'.plans[t], e, s) && db'.plans[t].reconcileAt == row.reconcileAt)
      && (outcome == Reconciled ==> Takes(row, db'.plans[t], e, answer.value) && db'.plans[t].reconcileAt == None)
      && (outcome == Held ==> db'.plans[t] == Row(Free, row.customer, row.sub, row.eventAt, e.created, row.status))
      && (outcome in {Stale, Ignored} ==> db'.plans[t] == row)
      && db'.processed == (if outcome == Held then db.processed else db.processed + {e.id})
      && (outcome == Reconciled ==> About(e).Some?)
      && db'.ended == (if outcome == Reconciled && EndsIt(answer.value) then ended + {About(e).value} else ended)
  {
    HowItIsAnswered(db, e, answer, t);
    OnlyItsRow(db, e, answer, t);
    WhatItWrites(db, e, answer, t);
    WhatItRecords(db, e, answer, t);
  }

  lemma Delivered(db: Db, e: Event, answer: Option<Status>, t: Tenant)
    requires e.id !in db.processed && TenantFor(db, e) == Some(t) && !CustomerConflict(db, e, t) && EffectOf(e).Some?
    ensures Deliver(db, e, answer) == ChangePlan(db.(processed := db.processed + {e.id}), t, e, EffectOf(e).value, answer)
  {
  }

  /** An event that reaches no tenant, or says no status the policy knows, changes no row. */
  lemma TheRestChangeNothing(db: Db, e: Event, answer: Option<Status>)
    requires e.kind in {CheckoutCompleted, SubscriptionUpdated, SubscriptionCreated, SubscriptionDeleted}
    requires (forall t :: !Reaches(db, e, t)) || !IsKnown(Says(e))
    ensures Deliver(db, e, answer) == (db.(processed := db.processed + {e.id}), if e.id in db.processed then Duplicate else Ignored)
  {
    EffectSays(e);
    if e.id in db.processed { assert db.processed + {e.id} == db.processed; }
    if TenantFor(db, e).Some? {
      var t := TenantFor(db, e).value;
      TheTenant(db, e, t);
      assert Reaches(db, e, t) <==> e.id !in db.processed && !CustomerConflict(db, e, t);
    }
  }

  // ----- asking Stripe -----

  /** A tie in the row the event is for, of a subscription not recorded as ended. */
  ghost predicate Ties(db: Db, e: Event, t: Tenant) {
    && IsFor(db, e, t) && t in db.plans && IsKnown(Says(e)) && SameSecond(e, db.plans[t], Says(e).value)
    && About(e).value !in db.ended
  }

  /** The check asks Stripe for exactly the ties, so with nothing between it and the transaction each is settled by the answer. */
  lemma TiesAreSettledByStripe(db: Db, d: Delivery)
    ensures AsksStripe(db, d.event) <==> exists t :: Ties(db, d.event, t)
    ensures (exists t :: Reaches(db, d.event, t) && Ties(db, d.event, t)) && IsKnown(d.answer) ==> Handle(db, d).1 == Reconciled
  {
    var e := d.event;
    EffectSays(e);
    forall t: Tenant ensures TenantFor(db, e) == Some(t) <==> IsFor(db, e, t) { TheTenant(db, e, t); }
    if TenantFor(db, e).Some? {
      var t := TenantFor(db, e).value;
      assert AsksStripe(db, e) <==> Ties(db, e, t);
      if Reaches(db, e, t) && Ties(db, e, t) { ASubscriptionEventSetsThePlan(db, e, d.answer, t); }
    }
  }
}
