/** A tenant's checkout start (`POST /api/create-instance-check`): the same
    configuration checks as the doctor's, the tenant lookup, reuse or creation of the
    provider customer (never synced), and a session tagged as a tenant subscription. */
module CreateInstanceCheck {
  import opened Text
  import opened Query
  import opened Store
  import CS = CreateCheckoutSession

  /** The request body: unparsable JSON (answered 500 by the outer `catch`), or the tenant id
      with an optional email and name for a new customer. */
  datatype Body = Unparsable | Parsed(instanciaId: Option<string>, email: Option<string>, nome: Option<string>)

  /** The mapping lookup: rows, a missing table (an error whose message says "does not exist"),
      or any other error. */
  datatype Lookup = Rows | TableMissing | LookupError

  /** Outcomes of the calls the route makes: the mapping lookup, the created customer's id
      (`None` when creation throws), the table probe before the insert, the insert itself,
      and the session creation. */
  datatype Oracles = Oracles(
    lookup: Lookup,
    createdCustomer: Option<string>,
    tableUsable: bool,
    insertFails: bool,
    sessionFails: bool)

  datatype Outcome = Outcome(reply: CS.Reply, customers: seq<CustomerLink>, call: CS.CustomerCall)

  /** `email || "cliente@exemplo.com"`. */
  function NewCustomerEmail(body: Body): string
    requires body.Parsed?
  {
    if Truthy(body.email) then body.email.value else "cliente@exemplo.com"
  }

  /** `nome || instancia.nome`. */
  function NewCustomerName(body: Body, inst: Instancia): string
    requires body.Parsed?
  {
    if Truthy(body.nome) then body.nome.value else inst.nome
  }

  function SessionFor(env: CS.Env, instanciaId: string, customerId: Option<string>): CS.SessionParams
    requires env.priceMonthly.Some? && env.baseUrl.Some?
  {
    CS.SessionParams(customerId, [CS.LineItem(env.priceMonthly.value, 1)], "subscription",
                     env.baseUrl.value + "/assinatura-sucesso?type=instancia&id=" + instanciaId,
                     env.baseUrl.value + "/assinatura-necessaria?canceled=true",
                     map["instanciaId" := instanciaId, "type" := "instancia"])
  }

  function Start(env: CS.Env, body: Body, o: Oracles, instancias: seq<Instancia>, customers: seq<CustomerLink>): Outcome
  {
    if !Truthy(env.secretKey) || !Truthy(env.priceMonthly) || !Truthy(env.baseUrl) then
      Outcome(CS.Failure(500), customers, CS.NoCustomerCall)
    else if body.Unparsable? then Outcome(CS.Failure(500), customers, CS.NoCustomerCall)
    else if !Truthy(body.instanciaId) then Outcome(CS.Failure(400), customers, CS.NoCustomerCall)
    else
      var found := Single(instancias, InstanciaHasId(body.instanciaId.value));
      if found.None? then Outcome(CS.Failure(404), customers, CS.NoCustomerCall)
      else if o.lookup == LookupError then Outcome(CS.Failure(500), customers, CS.NoCustomerCall)
      else Proceed(env, body, found.value, o, customers)
  }

  /** After the tenant was found and the lookup did not fail. */
  function Proceed(env: CS.Env, body: Body, inst: Instancia, o: Oracles, customers: seq<CustomerLink>): Outcome
    requires body.Parsed? && body.instanciaId.Some? && env.priceMonthly.Some? && env.baseUrl.Some?
  {
    var id := body.instanciaId.value;
    var links := if o.lookup == Rows then Filter(customers, LinkOwnedBy(id)) else [];
    if links != [] then
      if o.sessionFails then Outcome(CS.Failure(500), customers, CS.NoCustomerCall)
      else Outcome(CS.Session(SessionFor(env, id, links[0].customerId)), customers, CS.NoCustomerCall)
    else
      var email := NewCustomerEmail(body);
      var call := CS.CustomerCreate(email, NewCustomerName(body, inst), map["instanciaId" := id]);
      if o.createdCustomer.None? then Outcome(CS.Failure(500), customers, call)
      else
        var customers' := if o.tableUsable && !o.insertFails
                          then customers + [CustomerLink(id, o.createdCustomer, Some(email))] else customers;
        if o.sessionFails then Outcome(CS.Failure(500), customers', call)
        else Outcome(CS.Session(SessionFor(env, id, o.createdCustomer)), customers', call)
  }

  /** The three settings, in the doctor route's order, each answer 500 first; then a missing
      id answers 400, an unknown tenant 404, and a lookup error other than a missing table 500. */
  lemma EarlyRefusals(env: CS.Env, body: Body, o: Oracles, instancias: seq<Instancia>, customers: seq<CustomerLink>)
    ensures !CS.Configured(env) ==>
      Start(env, body, o, instancias, customers) == Outcome(CS.Failure(500), customers, CS.NoCustomerCall)
    ensures CS.Configured(env) && body.Parsed? ==>
      (!Truthy(body.instanciaId) ==>
         Start(env, body, o, instancias, customers) == Outcome(CS.Failure(400), customers, CS.NoCustomerCall))
      && (Truthy(body.instanciaId) && !Any(instancias, InstanciaHasId(body.instanciaId.value)) ==>
         Start(env, body, o, instancias, customers) == Outcome(CS.Failure(404), customers, CS.NoCustomerCall))
      && (Truthy(body.instanciaId) && Single(instancias, InstanciaHasId(body.instanciaId.value)).Some?
          && o.lookup == LookupError ==>
         Start(env, body, o, instancias, customers) == Outcome(CS.Failure(500), customers, CS.NoCustomerCall))
  {
  }

  /** An existing mapping is reused as it is: its first row's customer id, no provider call,
      no write. */
  lemma ReuseWithoutSync(env: CS.Env, body: Body, inst: Instancia, o: Oracles, customers: seq<CustomerLink>)
    requires body.Parsed? && body.instanciaId.Some? && env.priceMonthly.Some? && env.baseUrl.Some?
    requires o.lookup == Rows && !o.sessionFails && Any(customers, LinkOwnedBy(body.instanciaId.value))
    ensures var links := Filter(customers, LinkOwnedBy(body.instanciaId.value));
      links != []
      && Proceed(env, body, inst, o, customers)
         == Outcome(CS.Session(SessionFor(env, body.instanciaId.value, links[0].customerId)), customers, CS.NoCustomerCall)
  {
    FilterNonEmpty(customers, LinkOwnedBy(body.instanciaId.value));
  }

  /** Without a mapping (or without the mapping table) a customer is created with the given
      email or "cliente@exemplo.com" and the given name or the tenant's; its mapping is
      appended when the table is usable, and a failed insert changes nothing in the answer. */
  lemma CreateCustomer(env: CS.Env, body: Body, inst: Instancia, o: Oracles, customers: seq<CustomerLink>)
    requires body.Parsed? && body.instanciaId.Some? && env.priceMonthly.Some? && env.baseUrl.Some?
    requires o.lookup == TableMissing || !Any(customers, LinkOwnedBy(body.instanciaId.value))
    requires o.lookup != LookupError
    ensures var id := body.instanciaId.value;
      var out := Proceed(env, body, inst, o, customers);
      out.call == CS.CustomerCreate(NewCustomerEmail(body), NewCustomerName(body, inst), map["instanciaId" := id])
      && (o.createdCustomer.None? ==> out.reply == CS.Failure(500) && out.customers == customers)
      && (o.createdCustomer.Some? ==>
            out.reply == Proceed(env, body, inst, o.(insertFails := !o.insertFails), customers).reply
            && out.customers == (if o.tableUsable && !o.insertFails
                                 then customers + [CustomerLink(id, o.createdCustomer, Some(NewCustomerEmail(body)))]
                                 else customers))
    ensures !Truthy(body.email) ==> NewCustomerEmail(body) == "cliente@exemplo.com"
    ensures !Truthy(body.nome) ==> NewCustomerName(body, inst) == inst.nome
  {
    if o.lookup == Rows {
      NoneMatch(customers, LinkOwnedBy(body.instanciaId.value));
    }
  }

  /** A session is opened with one monthly line item, metadata exactly the tenant id and the
      tenant tag, and a success address that names the tenant. */
  lemma SessionShape(env: CS.Env, body: Body, o: Oracles, instancias: seq<Instancia>, customers: seq<CustomerLink>)
    requires Start(env, body, o, instancias, customers).reply.Session?
    ensures var p := Start(env, body, o, instancias, customers).reply.params;
      body.Parsed? && body.instanciaId.Some? && env.priceMonthly.Some? && env.baseUrl.Some?
      && p.lineItems == [CS.LineItem(env.priceMonthly.value, 1)] && p.mode == "subscription"
      && p.metadata == map["instanciaId" := body.instanciaId.value, "type" := "instancia"]
      && p.successUrl == env.baseUrl.value + "/assinatura-sucesso?type=instancia&id=" + body.instanciaId.value
      && p.cancelUrl == env.baseUrl.value + "/assinatura-necessaria?canceled=true"
  {
  }

  /** The route, run against the database. */
  method Post(db: Db, env: CS.Env, body: Body, o: Oracles) returns (reply: CS.Reply, call: CS.CustomerCall)
    requires db.Valid()
    modifies db`stripeCustomersInstancia
    ensures db.Valid()
    ensures var out := Start(env, body, o, db.instancias, old(db.stripeCustomersInstancia));
      reply == out.reply && call == out.call && db.stripeCustomersInstancia == out.customers
  {
    call := CS.NoCustomerCall;
    if !Truthy(env.secretKey) || !Truthy(env.priceMonthly) || !Truthy(env.baseUrl) {
      return CS.Failure(500), call;
    }
    if body.Unparsable? {
      return CS.Failure(500), call;
    }
    if !Truthy(body.instanciaId) {
      return CS.Failure(400), call;
    }
    var instanciaId := body.instanciaId.value;
    var instancia := Single(db.instancias, InstanciaHasId(instanciaId));
    if instancia.None? {
      return CS.Failure(404), call;
    }
    if o.lookup == LookupError {
      return CS.Failure(500), call;
    }
    var stripeCustomers := if o.lookup == Rows then Filter(db.stripeCustomersInstancia, LinkOwnedBy(instanciaId)) else [];
    var customerId: Option<string>;
    if stripeCustomers != [] {
      customerId := stripeCustomers[0].customerId;
    } else {
      var email := NewCustomerEmail(body);
      call := CS.CustomerCreate(email, NewCustomerName(body, instancia.value), map["instanciaId" := instanciaId]);
      if o.createdCustomer.None? {
        return CS.Failure(500), call;
      }
      customerId := o.createdCustomer;
      if o.tableUsable && !o.insertFails {
        db.stripeCustomersInstancia := db.stripeCustomersInstancia + [CustomerLink(instanciaId, customerId, Some(email))];
      }
    }
    if o.sessionFails {
      return CS.Failure(500), call;
    }
    return CS.Session(SessionFor(env, instanciaId, customerId)), call;
  }
}
