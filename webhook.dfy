/** The payment provider's webhook (`POST /api/webhook`): configuration and
    signature checks, then a dispatch on the event type that inserts rows
    into, or rewrites rows of, `assinaturas` and `assinaturas_instancia`. */
module Webhook {
  import opened Text
  import opened Query
  import opened Subscriptions
  import opened Store

  /** The two secrets the route reads from its environment. */
  datatype Env = Env(secretKey: Option<string>, webhookSecret: Option<string>)

  /** A payment method as the provider reports it. */
  datatype PaymentMethod = PaymentMethod(kind: string, last4: Option<string>)

  /** What retrieving a subscription from the provider gives back. */
  datatype ProviderSub = ProviderSub(
    state: ProviderState,
    amount: Option<int>,
    currency: string,
    paymentMethod: PaymentMethod)

  /** The events the route distinguishes; any other type is `OtherEvent`. */
  datatype Event =
    | CheckoutCompleted(subscriptionId: string, customerId: string, metadata: map<string, string>)
    | PaymentSucceeded(subscriptionId: string, customerId: string)
    | SubscriptionUpdated(sub: ProviderState)
    | SubscriptionDeleted(sub: ProviderState)
    | OtherEvent(eventType: string)

  /** The HTTP answer: a status code, and whether the body is `{received: true}`. */
  datatype Reply = Reply(status: int, received: bool)

  /** The answer and both subscription tables afterwards. */
  datatype Outcome = Outcome(reply: Reply, doctors: seq<Subscription>, tenants: seq<Subscription>)

  /** The row a completed checkout inserts: provider status copied, period bounds turned
      from seconds into milliseconds, next billing at the period end, plan "mensal". */
  function NewRow(table: seq<Subscription>, owner: string, customerId: string, subscriptionId: string,
                  p: ProviderSub): (r: Subscription)
    ensures r.id !in Ids(table)
    ensures r.owner == owner && r.customerId == customerId && r.subscriptionId == subscriptionId
    ensures r.status == StatusOf(p.state.status) && r.plan == "mensal"
    ensures r.periodStart == Some(p.state.periodStartSecs * 1000)
    ensures r.periodEnd == Some(p.state.periodEndSecs * 1000) && r.nextBilling == r.periodEnd
    ensures r.paymentMethod == p.paymentMethod.kind && r.last4 == p.paymentMethod.last4
    ensures r.amount == p.amount && r.currency == p.currency
    ensures r.canceledAt.None? && r.updatedAt.None?
  {
    Subscription(FreshId(Ids(table)), owner, customerId, subscriptionId, StatusOf(p.state.status), "mensal",
                 Some(p.state.periodStartSecs * 1000), Some(p.state.periodEndSecs * 1000),
                 Some(p.state.periodEndSecs * 1000), p.paymentMethod.kind, p.paymentMethod.last4,
                 p.amount, p.currency, None, None)
  }

  /** An insert becomes the newest row; a failed insert (whose error the route ignores) adds nothing. */
  function Insert(table: seq<Subscription>, row: Subscription, writeFails: bool): seq<Subscription>
  {
    if writeFails then table else [row] + table
  }

  function RefreshAt(p: ProviderState, now: int): Subscription -> Subscription
  {
    (r: Subscription) => Refresh(r, p, now)
  }

  function TerminateAt(s: Status, now: int): Subscription -> Subscription
  {
    (r: Subscription) => Terminate(r, s, now)
  }

  /** The status a provider deletion gives a doctor's row: "canceled" once the stored period
      end has passed, else "active_until_period_end". A missing end reads as the epoch. */
  function DeletedStatus(r: Subscription, now: int): Status
  {
    var end := if r.periodEnd.Some? then r.periodEnd.value else 0;
    if now > end then Canceled else ActiveUntilPeriodEnd
  }

  /** For a row with a period end, deletion keeps "active_until_period_end" exactly while the
      period is still valid. */
  lemma DeletedStatusFollowsPeriod(r: Subscription, now: int)
    requires r.periodEnd.Some?
    ensures DeletedStatus(r, now) == ActiveUntilPeriodEnd <==> PeriodValid(r, now)
    ensures DeletedStatus(r, now) == Canceled <==> !PeriodValid(r, now)
  {
  }

  /** `.eq("subscription_id", sid)` applied as an update to both tables, doctor table first:
      a doctor row found by `.maybeSingle()` (exactly one match) routes the write there,
      otherwise it goes to the tenant table when that table is usable. */
  function Route(doctors: seq<Subscription>, tenants: seq<Subscription>, sid: string,
                 tenantTableUsable: bool, writeFails: bool,
                 fDoctor: Subscription -> Subscription, fTenant: Subscription -> Subscription): Outcome
  {
    if Single(doctors, HasSubscriptionId(sid)).Some? then
      Outcome(Reply(200, true),
              if writeFails then doctors else UpdateWhere(doctors, HasSubscriptionId(sid), fDoctor), tenants)
    else if tenantTableUsable && !writeFails then
      Outcome(Reply(200, true), doctors, UpdateWhere(tenants, HasSubscriptionId(sid), fTenant))
    else Outcome(Reply(200, true), doctors, tenants)
  }

  /** `checkout.session.completed` once the subscription was retrieved: a new row for the
      tenant or for the doctor the metadata names, or 400 when it names neither. */
  function Checkout(sid: string, customerId: string, metadata: map<string, string>, p: ProviderSub,
                    tenantTableUsable: bool, writeFails: bool,
                    doctors: seq<Subscription>, tenants: seq<Subscription>): Outcome
  {
    var instanciaId := Get(metadata, "instanciaId");
    var medicoId := Get(metadata, "medicoId");
    if Get(metadata, "type") == Some("instancia") && Truthy(instanciaId) then
      var ok := tenantTableUsable && !writeFails;
      Outcome(Reply(200, true), doctors,
              Insert(tenants, NewRow(tenants, instanciaId.value, customerId, sid, p), !ok))
    else if Truthy(medicoId) then
      Outcome(Reply(200, true),
              Insert(doctors, NewRow(doctors, medicoId.value, customerId, sid, p), writeFails), tenants)
    else Outcome(Reply(400, false), doctors, tenants)
  }

  /** The whole route. `signatureValid` is the outcome of the signature check, `retrieved`
      that of retrieving the subscription from the provider (`None` when the call throws),
      `tenantTableUsable` that of the tenant-table probe, `writeFails` that of the write. */
  function Handle(env: Env, signatureValid: bool, event: Event, retrieved: Option<ProviderSub>,
                  tenantTableUsable: bool, writeFails: bool, now: int,
                  doctors: seq<Subscription>, tenants: seq<Subscription>): Outcome
  {
    if !Truthy(env.secretKey) || !Truthy(env.webhookSecret) then Outcome(Reply(500, false), doctors, tenants)
    else if !signatureValid then Outcome(Reply(400, false), doctors, tenants)
    else match event
      case CheckoutCompleted(sid, customerId, metadata) =>
        if retrieved.None? then Outcome(Reply(500, false), doctors, tenants)
        else Checkout(sid, customerId, metadata, retrieved.value, tenantTableUsable, writeFails, doctors, tenants)
      case PaymentSucceeded(sid, _) =>
        if retrieved.None? then Outcome(Reply(500, false), doctors, tenants)
        else
          var p := retrieved.value.state;
          Route(doctors, tenants, sid, tenantTableUsable, writeFails, RefreshAt(p, now), RefreshAt(p, now))
      case SubscriptionUpdated(p) =>
        Route(doctors, tenants, p.subscriptionId, tenantTableUsable, writeFails, RefreshAt(p, now), RefreshAt(p, now))
      case SubscriptionDeleted(p) =>
        var found := Single(doctors, HasSubscriptionId(p.subscriptionId));
        var novoStatus := if found.Some? then DeletedStatus(found.value, now) else Canceled;
        Route(doctors, tenants, p.subscriptionId, tenantTableUsable, writeFails,
              TerminateAt(novoStatus, now), TerminateAt(Canceled, now))
      case OtherEvent(_) => Outcome(Reply(200, true), doctors, tenants)
  }

  /** Missing secrets answer 500 and a bad signature 400; neither touches a table. */
  lemma RejectionsTouchNothing(env: Env, signatureValid: bool, event: Event, retrieved: Option<ProviderSub>,
                               tenantTableUsable: bool, writeFails: bool, now: int,
                               doctors: seq<Subscription>, tenants: seq<Subscription>)
    ensures var o := Handle(env, signatureValid, event, retrieved, tenantTableUsable, writeFails, now, doctors, tenants);
      (!Truthy(env.secretKey) || !Truthy(env.webhookSecret) ==> o == Outcome(Reply(500, false), doctors, tenants))
      && (Truthy(env.secretKey) && Truthy(env.webhookSecret) && !signatureValid
          ==> o == Outcome(Reply(400, false), doctors, tenants))
  {
  }

  predicate Configured(env: Env)
  {
    Truthy(env.secretKey) && Truthy(env.webhookSecret)
  }

  /** A completed tenant checkout adds exactly one row, at the front of `assinaturas_instancia`. */
  lemma CompletionForTenant(env: Env, sid: string, customerId: string, metadata: map<string, string>,
                            p: ProviderSub, now: int, doctors: seq<Subscription>, tenants: seq<Subscription>)
    requires Configured(env)
    requires Get(metadata, "type") == Some("instancia") && Truthy(Get(metadata, "instanciaId"))
    ensures var o := Handle(env, true, CheckoutCompleted(sid, customerId, metadata), Some(p), true, false,
                            now, doctors, tenants);
      o.reply == Reply(200, true) && o.doctors == doctors
      && |o.tenants| == |tenants| + 1 && o.tenants[1..] == tenants
      && o.tenants[0].owner == metadata["instanciaId"] && o.tenants[0].subscriptionId == sid
      && o.tenants[0].status == StatusOf(p.state.status)
      && o.tenants[0].periodEnd == Some(p.state.periodEndSecs * 1000)
      && o.tenants[0].nextBilling == o.tenants[0].periodEnd
  {
  }

  /** A completed doctor checkout (no tenant metadata) adds exactly one row to `assinaturas`;
      with neither id the answer is 400 and nothing is added. */
  lemma CompletionForDoctor(env: Env, sid: string, customerId: string, metadata: map<string, string>,
                            p: ProviderSub, tenantTableUsable: bool, now: int,
                            doctors: seq<Subscription>, tenants: seq<Subscription>)
    requires Configured(env)
    requires !(Get(metadata, "type") == Some("instancia") && Truthy(Get(metadata, "instanciaId")))
    ensures var o := Handle(env, true, CheckoutCompleted(sid, customerId, metadata), Some(p), tenantTableUsable,
                            false, now, doctors, tenants);
      (Truthy(Get(metadata, "medicoId")) ==>
         o.reply == Reply(200, true) && o.tenants == tenants
         && |o.doctors| == |doctors| + 1 && o.doctors[1..] == doctors
         && o.doctors[0].owner == metadata["medicoId"] && o.doctors[0].subscriptionId == sid
         && o.doctors[0].status == StatusOf(p.state.status))
      && (!Truthy(Get(metadata, "medicoId")) ==> o == Outcome(Reply(400, false), doctors, tenants))
  {
  }

  /** Inserting keeps keys unique. */
  lemma InsertKeepsUniqueIds(table: seq<Subscription>, owner: string, customerId: string, sid: string,
                             p: ProviderSub, writeFails: bool)
    requires UniqueIds(table)
    ensures UniqueIds(Insert(table, NewRow(table, owner, customerId, sid, p), writeFails))
  {
    var r := NewRow(table, owner, customerId, sid, p);
    var t := Insert(table, r, writeFails);
    if !writeFails {
      forall i, j | 0 <= i < j < |t|
        ensures t[i].id != t[j].id
      {
        if i == 0 {
          assert t[j] == table[j - 1];
          assert Ids(table)[j - 1] == table[j - 1].id;
        }
      }
    }
  }

  /** Completion inserts do not look for an existing row: a redelivered event adds a
      second row for the same provider subscription. */
  lemma {:induction false} RedeliveryAddsSecondRow(env: Env, sid: string, customerId: string,
                                                   metadata: map<string, string>, p: ProviderSub,
                                                   now: int, tenants: seq<Subscription>)
    requires Configured(env) && Truthy(Get(metadata, "medicoId"))
    requires !(Get(metadata, "type") == Some("instancia") && Truthy(Get(metadata, "instanciaId")))
    ensures var e := CheckoutCompleted(sid, customerId, metadata);
      var once := Handle(env, true, e, Some(p), true, false, now, [], tenants);
      var twice := Handle(env, true, e, Some(p), true, false, now, once.doctors, once.tenants);
      |twice.doctors| == 2 && twice.doctors[0].subscriptionId == sid && twice.doctors[1].subscriptionId == sid
  {
    var e := CheckoutCompleted(sid, customerId, metadata);
    CompletionForDoctor(env, sid, customerId, metadata, p, true, now, [], tenants);
    var once := Handle(env, true, e, Some(p), true, false, now, [], tenants);
    CompletionForDoctor(env, sid, customerId, metadata, p, true, now, once.doctors, once.tenants);
  }

  /** Two matching doctor rows make `.maybeSingle()` come back empty, so renewals after a
      redelivered completion never reach the doctor's rows: the update is aimed at the
      tenant table instead. */
  lemma {:induction false} DuplicateRowsMissRenewal(doctors: seq<Subscription>, tenants: seq<Subscription>,
                                                    p: ProviderState, tenantTableUsable: bool, now: int)
    requires |doctors| == 2
    requires doctors[0].subscriptionId == p.subscriptionId && doctors[1].subscriptionId == p.subscriptionId
    ensures Route(doctors, tenants, p.subscriptionId, tenantTableUsable, false,
                  RefreshAt(p, now), RefreshAt(p, now)).doctors == doctors
  {
    var m := Filter(doctors, HasSubscriptionId(p.subscriptionId));
    assert doctors == [doctors[0]] + [doctors[1]];
    FilterAppend([doctors[0]], [doctors[1]], HasSubscriptionId(p.subscriptionId));
    assert Filter([doctors[0]], HasSubscriptionId(p.subscriptionId)) == [doctors[0]] + Filter([], HasSubscriptionId(p.subscriptionId));
    assert Filter([doctors[1]], HasSubscriptionId(p.subscriptionId)) == [doctors[1]] + Filter([], HasSubscriptionId(p.subscriptionId));
    assert |m| == 2;
  }

  /** A renewal or update rewrites the matching doctor row (status and period only) and
      leaves every other row alone. */
  lemma {:induction false} RenewalRewritesDoctorRow(doctors: seq<Subscription>, tenants: seq<Subscription>,
                                                    p: ProviderState, tenantTableUsable: bool, now: int, i: int)
    requires 0 <= i < |doctors| && doctors[i].subscriptionId == p.subscriptionId
    requires forall j :: 0 <= j < |doctors| && j != i ==> doctors[j].subscriptionId != p.subscriptionId
    ensures var o := Route(doctors, tenants, p.subscriptionId, tenantTableUsable, false,
                           RefreshAt(p, now), RefreshAt(p, now));
      o.tenants == tenants && o.doctors == doctors[i := Refresh(doctors[i], p, now)]
  {
    var q := HasSubscriptionId(p.subscriptionId);
    SingleOfOnlyMatch(doctors, q, i);
    var u := UpdateWhere(doctors, q, RefreshAt(p, now));
    assert u == doctors[i := Refresh(doctors[i], p, now)] by {
      forall j | 0 <= j < |doctors| ensures u[j] == doctors[i := Refresh(doctors[i], p, now)][j] {
        if j != i {
          assert !q(doctors[j]);
        }
      }
    }
  }

  /** No row with that subscription id in either table: a renewal changes nothing. */
  lemma RenewalWithoutMatchChangesNothing(doctors: seq<Subscription>, tenants: seq<Subscription>,
                                          p: ProviderState, tenantTableUsable: bool, writeFails: bool, now: int)
    requires !Any(doctors, HasSubscriptionId(p.subscriptionId)) && !Any(tenants, HasSubscriptionId(p.subscriptionId))
    ensures Route(doctors, tenants, p.subscriptionId, tenantTableUsable, writeFails,
                  RefreshAt(p, now), RefreshAt(p, now)) == Outcome(Reply(200, true), doctors, tenants)
  {
    assert UpdateWhere(tenants, HasSubscriptionId(p.subscriptionId), RefreshAt(p, now)) == tenants;
  }

  /** Delivering the same provider state twice gives what delivering it once at the later
      time gives: only `updated_at` moves. */
  lemma UpdateRedeliveryIdempotent(env: Env, p: ProviderState, tenantTableUsable: bool,
                                   t1: int, t2: int,
                                   doctors: seq<Subscription>, tenants: seq<Subscription>)
    requires Configured(env)
    ensures var once := Handle(env, true, SubscriptionUpdated(p), None, tenantTableUsable, false, t1, doctors, tenants);
      Handle(env, true, SubscriptionUpdated(p), None, tenantTableUsable, false, t2, once.doctors, once.tenants)
      == Handle(env, true, SubscriptionUpdated(p), None, tenantTableUsable, false, t2, doctors, tenants)
  {
    RouteRefreshTwice(doctors, tenants, p, tenantTableUsable, t1, t2);
  }

  lemma {:induction false} RouteRefreshTwice(doctors: seq<Subscription>, tenants: seq<Subscription>,
                                             p: ProviderState, tenantTableUsable: bool, t1: int, t2: int)
    ensures var sid := p.subscriptionId;
      var once := Route(doctors, tenants, sid, tenantTableUsable, false, RefreshAt(p, t1), RefreshAt(p, t1));
      Route(once.doctors, once.tenants, sid, tenantTableUsable, false, RefreshAt(p, t2), RefreshAt(p, t2))
      == Route(doctors, tenants, sid, tenantTableUsable, false, RefreshAt(p, t2), RefreshAt(p, t2))
  {
    var q := HasSubscriptionId(p.subscriptionId);
    if Single(doctors, q).Some? {
      SameMatches(doctors, q, RefreshAt(p, t1));
      RefreshTwice(doctors, q, p, t1, t2);
    } else if tenantTableUsable {
      RefreshTwice(tenants, q, p, t1, t2);
    }
  }

  lemma RefreshTwice(rows: seq<Subscription>, q: Subscription -> bool, p: ProviderState, t1: int, t2: int)
    requires forall r :: q(r) ==> q(Refresh(r, p, t1))
    ensures UpdateWhere(UpdateWhere(rows, q, RefreshAt(p, t1)), q, RefreshAt(p, t2))
         == UpdateWhere(rows, q, RefreshAt(p, t2))
  {
    var a := UpdateWhere(UpdateWhere(rows, q, RefreshAt(p, t1)), q, RefreshAt(p, t2));
    var b := UpdateWhere(rows, q, RefreshAt(p, t2));
    forall k | 0 <= k < |rows|
      ensures a[k] == b[k]
    {
      if q(rows[k]) {
        RefreshIdempotent(rows[k], p, t1, t2);
      }
    }
  }

  /** A rewrite that keeps the subscription id keeps the set of matching rows the same size. */
  lemma {:induction false} SameMatches(rows: seq<Subscription>, q: Subscription -> bool, f: Subscription -> Subscription)
    requires forall r :: q(r) ==> q(f(r))
    ensures |Filter(UpdateWhere(rows, q, f), q)| == |Filter(rows, q)|
    decreases |rows|
  {
    if rows != [] {
      var u := UpdateWhere(rows, q, f);
      assert u[1..] == UpdateWhere(rows[1..], q, f);
      SameMatches(rows[1..], q, f);
    }
  }

  /** A provider deletion of a doctor's subscription stamps `canceled_at` and sets the status
      by the stored period end; of a tenant's, always "canceled". */
  lemma {:induction false} DeletionOutcome(doctors: seq<Subscription>, tenants: seq<Subscription>,
                                           env: Env, p: ProviderState, now: int, i: int)
    requires Configured(env)
    requires 0 <= i < |doctors| && doctors[i].subscriptionId == p.subscriptionId
    requires forall j :: 0 <= j < |doctors| && j != i ==> doctors[j].subscriptionId != p.subscriptionId
    ensures var o := Handle(env, true, SubscriptionDeleted(p), None, true, false, now, doctors, tenants);
      o.reply == Reply(200, true) && o.tenants == tenants
      && o.doctors == doctors[i := Terminate(doctors[i], DeletedStatus(doctors[i], now), now)]
  {
    var q := HasSubscriptionId(p.subscriptionId);
    SingleOfOnlyMatch(doctors, q, i);
    var s := DeletedStatus(doctors[i], now);
    var u := UpdateWhere(doctors, q, TerminateAt(s, now));
    assert forall k :: 0 <= k < |doctors| ==> u[k] == doctors[i := Terminate(doctors[i], s, now)][k];
  }

  lemma {:induction false} TenantDeletionCancels(doctors: seq<Subscription>, tenants: seq<Subscription>,
                                                 env: Env, p: ProviderState, now: int)
    requires Configured(env)
    requires !Any(doctors, HasSubscriptionId(p.subscriptionId))
    ensures var o := Handle(env, true, SubscriptionDeleted(p), None, true, false, now, doctors, tenants);
      o.reply == Reply(200, true) && o.doctors == doctors
      && |o.tenants| == |tenants|
      && forall k :: 0 <= k < |tenants| ==>
           o.tenants[k] == if tenants[k].subscriptionId == p.subscriptionId
                           then Terminate(tenants[k], Canceled, now) else tenants[k]
  {
  }

  /** Any other event type is acknowledged and changes nothing; a provider call that throws
      answers 500 and changes nothing. */
  lemma OtherEventsAndThrows(env: Env, t: string, sid: string, customerId: string, metadata: map<string, string>,
                             tenantTableUsable: bool, writeFails: bool, now: int,
                             doctors: seq<Subscription>, tenants: seq<Subscription>)
    requires Configured(env)
    ensures Handle(env, true, OtherEvent(t), None, tenantTableUsable, writeFails, now, doctors, tenants)
            == Outcome(Reply(200, true), doctors, tenants)
    ensures Handle(env, true, CheckoutCompleted(sid, customerId, metadata), None, tenantTableUsable, writeFails,
                   now, doctors, tenants) == Outcome(Reply(500, false), doctors, tenants)
    ensures Handle(env, true, PaymentSucceeded(sid, customerId), None, tenantTableUsable, writeFails,
                   now, doctors, tenants) == Outcome(Reply(500, false), doctors, tenants)
  {
  }

  /** The route, run against the database. */
  method Post(db: Db, env: Env, signatureValid: bool, event: Event, retrieved: Option<ProviderSub>,
              tenantTableUsable: bool, writeFails: bool, now: int) returns (reply: Reply)
    requires db.Valid()
    modifies db`assinaturas, db`assinaturasInstancia
    ensures db.Valid()
    ensures var o := Handle(env, signatureValid, event, retrieved, tenantTableUsable, writeFails, now,
                            old(db.assinaturas), old(db.assinaturasInstancia));
      reply == o.reply && db.assinaturas == o.doctors && db.assinaturasInstancia == o.tenants
  {
    if !Truthy(env.secretKey) {
      return Reply(500, false);
    }
    if !Truthy(env.webhookSecret) {
      return Reply(500, false);
    }
    if !signatureValid {
      return Reply(400, false);
    }
    match event {
      case CheckoutCompleted(sid, customerId, metadata) =>
        if retrieved.None? {
          return Reply(500, false);
        }
        reply := RecordCheckout(db, sid, customerId, metadata, retrieved.value, tenantTableUsable, writeFails);
        return;
      case PaymentSucceeded(sid, _) =>
        if retrieved.None? {
          return Reply(500, false);
        }
        ApplyRoute(db, sid, tenantTableUsable, writeFails, RefreshAt(retrieved.value.state, now),
                   RefreshAt(retrieved.value.state, now));
      case SubscriptionUpdated(p) =>
        ApplyRoute(db, p.subscriptionId, tenantTableUsable, writeFails, RefreshAt(p, now), RefreshAt(p, now));
      case SubscriptionDeleted(p) =>
        var found := Single(db.assinaturas, HasSubscriptionId(p.subscriptionId));
        var novoStatus := if found.Some? then DeletedStatus(found.value, now) else Canceled;
        ApplyRoute(db, p.subscriptionId, tenantTableUsable, writeFails,
                   TerminateAt(novoStatus, now), TerminateAt(Canceled, now));
      case OtherEvent(_) =>
    }
    return Reply(200, true);
  }

  /** The insert of `checkout.session.completed`. */
  method RecordCheckout(db: Db, sid: string, customerId: string, metadata: map<string, string>, p: ProviderSub,
                        tenantTableUsable: bool, writeFails: bool) returns (reply: Reply)
    requires db.Valid()
    modifies db`assinaturas, db`assinaturasInstancia
    ensures db.Valid()
    ensures var o := Checkout(sid, customerId, metadata, p, tenantTableUsable, writeFails,
                              old(db.assinaturas), old(db.assinaturasInstancia));
      reply == o.reply && db.assinaturas == o.doctors && db.assinaturasInstancia == o.tenants
  {
    var instanciaId := Get(metadata, "instanciaId");
    var medicoId := Get(metadata, "medicoId");
    if Get(metadata, "type") == Some("instancia") && Truthy(instanciaId) {
      if tenantTableUsable && !writeFails {
        var row := NewRow(db.assinaturasInstancia, instanciaId.value, customerId, sid, p);
        InsertKeepsUniqueIds(db.assinaturasInstancia, instanciaId.value, customerId, sid, p, false);
        db.assinaturasInstancia := [row] + db.assinaturasInstancia;
      }
    } else if Truthy(medicoId) {
      if !writeFails {
        var row := NewRow(db.assinaturas, medicoId.value, customerId, sid, p);
        InsertKeepsUniqueIds(db.assinaturas, medicoId.value, customerId, sid, p, false);
        db.assinaturas := [row] + db.assinaturas;
      }
    } else {
      return Reply(400, false);
    }
    return Reply(200, true);
  }

  /** The doctor-table-first update shared by the three rewriting events. */
  method ApplyRoute(db: Db, sid: string, tenantTableUsable: bool, writeFails: bool,
                    fDoctor: Subscription -> Subscription, fTenant: Subscription -> Subscription)
    requires db.Valid()
    requires forall r :: fDoctor(r).id == r.id && fTenant(r).id == r.id
    modifies db`assinaturas, db`assinaturasInstancia
    ensures db.Valid()
    ensures var o := Route(old(db.assinaturas), old(db.assinaturasInstancia), sid, tenantTableUsable,
                           writeFails, fDoctor, fTenant);
      db.assinaturas == o.doctors && db.assinaturasInstancia == o.tenants
  {
    var assinaturaMedico := Single(db.assinaturas, HasSubscriptionId(sid));
    if assinaturaMedico.Some? {
      if !writeFails {
        UpdateKeepsUniqueIds(db.assinaturas, HasSubscriptionId(sid), fDoctor);
        db.assinaturas := UpdateWhere(db.assinaturas, HasSubscriptionId(sid), fDoctor);
      }
    } else if tenantTableUsable && !writeFails {
      UpdateKeepsUniqueIds(db.assinaturasInstancia, HasSubscriptionId(sid), fTenant);
      db.assinaturasInstancia := UpdateWhere(db.assinaturasInstancia, HasSubscriptionId(sid), fTenant);
    }
  }
}
