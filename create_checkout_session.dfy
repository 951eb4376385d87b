/** A doctor's checkout start (`POST /api/create-checkout-session`): configuration
    checks, the doctor lookup, repair of an unusable email, reuse or creation of the
    provider customer, and the parameters of the checkout session. */
module CreateCheckoutSession {
  import opened Text
  import opened Query
  import opened Store
  import opened Utils

  // ---------------------------------------------------------------------------
  // Email repair (the check itself is Utils.IsValidEmail)
  // ---------------------------------------------------------------------------

  /** `.replace(/[^\w\s]/gi, "")`: keep word characters and white space. */
  function KeepWordAndSpace(s: string): (r: string)
    ensures forall k :: 0 <= k < |r| ==> IsWordChar(r[k]) || IsSpace(r[k])
  {
    if s == [] then []
    else (if IsWordChar(s[0]) || IsSpace(s[0]) then [s[0]] else []) + KeepWordAndSpace(s[1..])
  }

  /** The local part `generateValidEmail` builds from a name. */
  function LocalPart(name: string): string
  {
    ReplaceRuns(KeepWordAndSpace(LowerStr(name)), IsSpace, '.')
  }

  /** `generateValidEmail`. */
  function GenerateValidEmail(name: string): string
  {
    LocalPart(name) + "@exemplo.com"
  }

  /** The local part holds only word characters and single dots, so never `@` nor white space. */
  lemma LocalPartChars(name: string)
    ensures var l := LocalPart(name);
      (forall k :: 0 <= k < |l| ==> (IsWordChar(l[k]) || l[k] == '.') && l[k] != '@' && !IsSpace(l[k]))
      && NoDoubled(l, '.')
  {
    var kept := KeepWordAndSpace(LowerStr(name));
    var l := LocalPart(name);
    assert forall k :: 0 <= k < |kept| ==> kept[k] != '.';
    ReplaceRunsNoDoubleSep(kept, IsSpace, '.');
    forall k | 0 <= k < |l|
      ensures (IsWordChar(l[k]) || l[k] == '.') && l[k] != '@' && !IsSpace(l[k])
    {
      if l[k] != '.' {
        var j :| 0 <= j < |kept| && l[k] == kept[j] && !IsSpace(kept[j]);
      }
    }
  }

  /** The generated address is the local part at `exemplo.com`; whenever the local part is
      non-empty, it passes `isValidEmail`. */
  lemma GeneratedEmailShape(name: string)
    ensures var l := LocalPart(name);
      GenerateValidEmail(name) == l + "@" + "exemplo" + "." + "com"
      && (l != [] ==> IsValidEmail(GenerateValidEmail(name)))
  {
    var l := LocalPart(name);
    LocalPartChars(name);
    ExemploDomain();
    assert GenerateValidEmail(name) == l + "@" + "exemplo" + "." + "com";
    if l != [] {
      ShapeIsValid(l, "exemplo", "com");
    }
  }

  /** The fixed domain `exemplo.com` is two valid parts. */
  lemma ExemploDomain()
    ensures Part("exemplo") && Part("com")
    ensures "@exemplo.com" == "@" + "exemplo" + "." + "com"
  {
  }

  /** A name with no letter, digit, `_` or white space yields "@exemplo.com", which the check
      itself rejects. */
  lemma SymbolOnlyNameGivesInvalidEmail(name: string)
    requires forall k :: 0 <= k < |name| ==> !IsWordChar(Lower(name[k])) && !IsSpace(Lower(name[k]))
    ensures GenerateValidEmail(name) == "@exemplo.com"
    ensures !IsValidEmail(GenerateValidEmail(name))
  {
    NothingKept(LowerStr(name));
  }

  lemma {:induction false} NothingKept(s: string)
    requires forall k :: 0 <= k < |s| ==> !IsWordChar(s[k]) && !IsSpace(s[k])
    ensures KeepWordAndSpace(s) == []
  {
    if s != [] {
      NothingKept(s[1..]);
    }
  }

  // ---------------------------------------------------------------------------
  // The route
  // ---------------------------------------------------------------------------

  /** The three settings the route reads, in the order it checks them. */
  datatype Env = Env(secretKey: Option<string>, priceMonthly: Option<string>, baseUrl: Option<string>)

  /** The request body: unparsable JSON (which the route's outer `catch` answers with 500),
      or an object with an optional `medicoId`. */
  datatype Body = Unparsable | Parsed(medicoId: Option<string>)

  datatype LineItem = LineItem(price: string, quantity: int)

  /** What the route asks the provider to open. */
  datatype SessionParams = SessionParams(
    customer: Option<string>,
    lineItems: seq<LineItem>,
    mode: string,
    successUrl: string,
    cancelUrl: string,
    metadata: map<string, string>)

  /** The customer call the route makes, if any. */
  datatype CustomerCall =
    | NoCustomerCall
    | CustomerUpdate(customerId: string, email: string)
    | CustomerCreate(email: string, name: string, metadata: map<string, string>)

  datatype Reply = Session(params: SessionParams) | Failure(status: int)

  /** Outcomes of the calls the route makes: the email write-back, the mapping lookup, the
      provider's customer update and the mapping's email update, the created customer's id
      (`None` when creation throws), the mapping insert, and the session creation. */
  datatype Oracles = Oracles(
    emailWriteFails: bool,
    lookupFails: bool,
    customerUpdateFails: bool,
    mappingWriteFails: bool,
    createdCustomer: Option<string>,
    insertFails: bool,
    sessionFails: bool)

  /** The answer, both tables afterwards, and the customer call made. */
  datatype Outcome = Outcome(reply: Reply, medicos: seq<Medico>, customers: seq<CustomerLink>, call: CustomerCall)

  function SetEmail(email: string): Medico -> Medico
  {
    (m: Medico) => m.(email := Some(email))
  }

  function SetLinkEmail(email: string): CustomerLink -> CustomerLink
  {
    (c: CustomerLink) => c.(email := Some(email))
  }

  /** `customerEmail`: the stored address when `isValidEmail` accepts it, else the generated one. */
  function CustomerEmail(m: Medico): (e: string)
    ensures var stored := if m.email.Some? then m.email.value else "";
      (IsValidEmail(stored) ==> e == stored) && (!IsValidEmail(stored) ==> e == GenerateValidEmail(m.nome))
  {
    var stored := if m.email.Some? then m.email.value else "";
    if IsValidEmail(stored) then stored else GenerateValidEmail(m.nome)
  }

  /** The doctors table after the email repair: written only when the stored address was
      rejected and the write succeeds. */
  function RepairedMedicos(medicos: seq<Medico>, m: Medico, o: Oracles): seq<Medico>
  {
    var stored := if m.email.Some? then m.email.value else "";
    if IsValidEmail(stored) || o.emailWriteFails then medicos
    else UpdateWhere(medicos, MedicoHasId(m.id), SetEmail(CustomerEmail(m)))
  }

  /** The customer stage: its id (`None` where the route answers 500), the mapping table
      afterwards and the provider call made. */
  datatype CustomerResult = CustomerResult(customerId: Option<string>, customers: seq<CustomerLink>, call: CustomerCall)

  function ResolveCustomer(m: Medico, email: string, customers: seq<CustomerLink>, o: Oracles): CustomerResult
  {
    var links := Filter(customers, LinkOwnedBy(m.id));
    if links != [] then
      var cid := links[0].customerId;
      if !Truthy(cid) then CustomerResult(None, customers, NoCustomerCall)
      else if links[0].email == Some(email) then CustomerResult(cid, customers, NoCustomerCall)
      else if o.customerUpdateFails || o.mappingWriteFails then
        CustomerResult(cid, customers, CustomerUpdate(cid.value, email))
      else CustomerResult(cid, UpdateWhere(customers, LinkOwnedBy(m.id), SetLinkEmail(email)),
                          CustomerUpdate(cid.value, email))
    else
      var call := CustomerCreate(email, m.nome, map["medicoId" := m.id]);
      if o.createdCustomer.None? || o.insertFails then CustomerResult(None, customers, call)
      else CustomerResult(o.createdCustomer,
                          customers + [CustomerLink(m.id, o.createdCustomer, Some(email))], call)
  }

  function SessionFor(env: Env, medicoId: string, customerId: string): SessionParams
    requires env.priceMonthly.Some? && env.baseUrl.Some?
  {
    SessionParams(Some(customerId), [LineItem(env.priceMonthly.value, 1)], "subscription",
                  env.baseUrl.value + "/medico/area/assinatura?success=true",
                  env.baseUrl.value + "/medico/area/assinatura?canceled=true",
                  map["medicoId" := medicoId])
  }

  function Checkout(env: Env, body: Body, o: Oracles, medicos: seq<Medico>, customers: seq<CustomerLink>): Outcome
  {
    if !Truthy(env.secretKey) || !Truthy(env.priceMonthly) || !Truthy(env.baseUrl) then
      Outcome(Failure(500), medicos, customers, NoCustomerCall)
    else if body.Unparsable? then Outcome(Failure(500), medicos, customers, NoCustomerCall)
    else if !Truthy(body.medicoId) then Outcome(Failure(400), medicos, customers, NoCustomerCall)
    else
      var found := Single(medicos, MedicoHasId(body.medicoId.value));
      if found.None? then Outcome(Failure(404), medicos, customers, NoCustomerCall)
      else Proceed(env, found.value, o, medicos, customers)
  }

  /** Everything after the doctor was found: email repair, mapping lookup, customer, session. */
  function Proceed(env: Env, m: Medico, o: Oracles, medicos: seq<Medico>, customers: seq<CustomerLink>): Outcome
    requires env.priceMonthly.Some? && env.baseUrl.Some?
  {
    var medicos' := RepairedMedicos(medicos, m, o);
    if o.lookupFails then Outcome(Failure(500), medicos', customers, NoCustomerCall)
    else
      var c := ResolveCustomer(m, CustomerEmail(m), customers, o);
      if c.customerId.None? || o.sessionFails then Outcome(Failure(500), medicos', c.customers, c.call)
      else Outcome(Session(SessionFor(env, m.id, c.customerId.value)), medicos', c.customers, c.call)
  }

  /** The settings are checked first, in order; any one missing answers 500 before any other
      work; then a missing id answers 400 and an unknown doctor 404. */
  lemma EarlyRefusals(env: Env, body: Body, o: Oracles, medicos: seq<Medico>, customers: seq<CustomerLink>)
    ensures !Truthy(env.secretKey) || !Truthy(env.priceMonthly) || !Truthy(env.baseUrl) ==>
      Checkout(env, body, o, medicos, customers) == Outcome(Failure(500), medicos, customers, NoCustomerCall)
    ensures Truthy(env.secretKey) && Truthy(env.priceMonthly) && Truthy(env.baseUrl) && body.Parsed? ==>
      (!Truthy(body.medicoId) ==>
         Checkout(env, body, o, medicos, customers) == Outcome(Failure(400), medicos, customers, NoCustomerCall))
      && (Truthy(body.medicoId) && !Any(medicos, MedicoHasId(body.medicoId.value)) ==>
         Checkout(env, body, o, medicos, customers) == Outcome(Failure(404), medicos, customers, NoCustomerCall))
  {
  }

  predicate Configured(env: Env)
  {
    Truthy(env.secretKey) && Truthy(env.priceMonthly) && Truthy(env.baseUrl)
  }

  /** A rejected stored address is replaced, on that doctor's row only, by the generated one;
      a valid one, or a failed write-back, leaves the table alone. */
  lemma {:induction false} EmailRepair(medicos: seq<Medico>, o: Oracles, i: int)
    requires 0 <= i < |medicos| && UniqueKeys(MedicoIds(medicos))
    ensures var m := medicos[i];
      var stored := if m.email.Some? then m.email.value else "";
      (IsValidEmail(stored) || o.emailWriteFails ==> RepairedMedicos(medicos, m, o) == medicos)
      && (!IsValidEmail(stored) && !o.emailWriteFails ==>
            RepairedMedicos(medicos, m, o) == medicos[i := m.(email := Some(GenerateValidEmail(m.nome)))])
  {
    var m := medicos[i];
    var u := UpdateWhere(medicos, MedicoHasId(m.id), SetEmail(CustomerEmail(m)));
    forall k | 0 <= k < |medicos|
      ensures u[k] == medicos[i := m.(email := Some(CustomerEmail(m)))][k]
    {
      if k != i {
        assert MedicoIds(medicos)[k] != MedicoIds(medicos)[i];
      }
    }
  }

  /** A failed email write-back does not stop the flow: the answer, the mapping table and the
      customer call are those of a successful one. */
  lemma EmailWriteFailureIgnored(env: Env, m: Medico, o: Oracles, medicos: seq<Medico>, customers: seq<CustomerLink>)
    requires env.priceMonthly.Some? && env.baseUrl.Some?
    ensures var a := Proceed(env, m, o, medicos, customers);
      var b := Proceed(env, m, o.(emailWriteFails := !o.emailWriteFails), medicos, customers);
      a.reply == b.reply && a.customers == b.customers && a.call == b.call
  {
    assert ResolveCustomer(m, CustomerEmail(m), customers, o)
        == ResolveCustomer(m, CustomerEmail(m), customers, o.(emailWriteFails := !o.emailWriteFails));
  }

  /** With unique keys, the doctor with a given id is the one `.single()` returns. */
  lemma MedicoFound(medicos: seq<Medico>, i: int)
    requires 0 <= i < |medicos| && UniqueKeys(MedicoIds(medicos))
    ensures Single(medicos, MedicoHasId(medicos[i].id)) == Some(medicos[i])
  {
    forall j | 0 <= j < |medicos| && j != i
      ensures !MedicoHasId(medicos[i].id)(medicos[j])
    {
      assert MedicoIds(medicos)[j] != MedicoIds(medicos)[i];
    }
    SingleOfOnlyMatch(medicos, MedicoHasId(medicos[i].id), i);
  }

  /** A known doctor's request goes on past the lookup with that doctor's row. */
  lemma KnownDoctorProceeds(env: Env, o: Oracles, medicos: seq<Medico>, customers: seq<CustomerLink>, i: int)
    requires Configured(env) && 0 <= i < |medicos| && medicos[i].id != ""
    requires UniqueKeys(MedicoIds(medicos))
    ensures Checkout(env, Parsed(Some(medicos[i].id)), o, medicos, customers)
         == Proceed(env, medicos[i], o, medicos, customers)
  {
    MedicoFound(medicos, i);
  }

  /** An existing mapping is reused: its first row's customer id (500 when it has none); the
      provider's copy of the email is updated only when it differs; nothing is created. */
  lemma ReuseExistingCustomer(m: Medico, email: string, customers: seq<CustomerLink>, o: Oracles)
    requires Any(customers, LinkOwnedBy(m.id))
    ensures var links := Filter(customers, LinkOwnedBy(m.id));
      var r := ResolveCustomer(m, email, customers, o);
      links != [] && r.customerId == (if Truthy(links[0].customerId) then links[0].customerId else None)
      && !r.call.CustomerCreate? && |r.customers| == |customers|
      && (r.call.CustomerUpdate? <==> Truthy(links[0].customerId) && links[0].email != Some(email))
  {
    FilterNonEmpty(customers, LinkOwnedBy(m.id));
  }

  /** Without a mapping a customer is created with the doctor's name and id; its mapping is
      appended, and a failed creation or insert leaves no customer id (500). */
  lemma CreateCustomer(m: Medico, email: string, customers: seq<CustomerLink>, o: Oracles)
    requires !Any(customers, LinkOwnedBy(m.id))
    ensures var r := ResolveCustomer(m, email, customers, o);
      r.call == CustomerCreate(email, m.nome, map["medicoId" := m.id])
      && (o.createdCustomer.None? || o.insertFails ==> r.customerId.None? && r.customers == customers)
      && (o.createdCustomer.Some? && !o.insertFails ==>
            r.customerId == o.createdCustomer
            && r.customers == customers + [CustomerLink(m.id, o.createdCustomer, Some(email))])
  {
    NoneMatch(customers, LinkOwnedBy(m.id));
  }

  /** A session is opened with exactly one line item (the monthly price, quantity 1), mode
      "subscription", the doctor's id as its only metadata, and return addresses on the
      subscription page. */
  lemma SessionShape(env: Env, body: Body, o: Oracles, medicos: seq<Medico>, customers: seq<CustomerLink>)
    requires Checkout(env, body, o, medicos, customers).reply.Session?
    ensures var p := Checkout(env, body, o, medicos, customers).reply.params;
      body.Parsed? && body.medicoId.Some? && env.priceMonthly.Some? && env.baseUrl.Some?
      && p.lineItems == [LineItem(env.priceMonthly.value, 1)] && p.mode == "subscription"
      && p.metadata == map["medicoId" := body.medicoId.value]
      && p.successUrl == env.baseUrl.value + "/medico/area/assinatura?success=true"
      && p.cancelUrl == env.baseUrl.value + "/medico/area/assinatura?canceled=true"
  {
  }

  /** The route, run against the database. */
  method Post(db: Db, env: Env, body: Body, o: Oracles) returns (reply: Reply, call: CustomerCall)
    requires db.Valid()
    modifies db`medicos, db`stripeCustomers
    ensures db.Valid()
    ensures var out := Checkout(env, body, o, old(db.medicos), old(db.stripeCustomers));
      reply == out.reply && call == out.call && db.medicos == out.medicos && db.stripeCustomers == out.customers
  {
    call := NoCustomerCall;
    if !Truthy(env.secretKey) || !Truthy(env.priceMonthly) || !Truthy(env.baseUrl) {
      return Failure(500), call;
    }
    if body.Unparsable? {
      return Failure(500), call;
    }
    if !Truthy(body.medicoId) {
      return Failure(400), call;
    }
    var medicoId := body.medicoId.value;
    var medico := Single(db.medicos, MedicoHasId(medicoId));
    if medico.None? {
      return Failure(404), call;
    }
    reply, call := Continue(db, env, medico.value, o);
  }

  /** Everything after the doctor was found, against the database. */
  method Continue(db: Db, env: Env, m: Medico, o: Oracles) returns (reply: Reply, call: CustomerCall)
    requires db.Valid() && env.priceMonthly.Some? && env.baseUrl.Some?
    modifies db`medicos, db`stripeCustomers
    ensures db.Valid()
    ensures var out := Proceed(env, m, o, old(db.medicos), old(db.stripeCustomers));
      reply == out.reply && call == out.call && db.medicos == out.medicos && db.stripeCustomers == out.customers
  {
    call := NoCustomerCall;
    var customerEmail := RepairEmail(db, m, o);
    if o.lookupFails {
      return Failure(500), call;
    }
    var customerId: Option<string>;
    customerId, call := UseOrCreateCustomer(db, m, customerEmail, o);
    if customerId.None? || o.sessionFails {
      return Failure(500), call;
    }
    return Session(SessionFor(env, m.id, customerId.value)), call;
  }

  /** The email repair, against the doctors table. */
  method RepairEmail(db: Db, m: Medico, o: Oracles) returns (customerEmail: string)
    requires db.Valid()
    modifies db`medicos
    ensures db.Valid()
    ensures customerEmail == CustomerEmail(m) && db.medicos == RepairedMedicos(old(db.medicos), m, o)
  {
    customerEmail := if m.email.Some? then m.email.value else "";
    if !IsValidEmail(customerEmail) {
      customerEmail := GenerateValidEmail(m.nome);
      if !o.emailWriteFails {
        UpdateKeepsMedicoIds(db.medicos, MedicoHasId(m.id), SetEmail(customerEmail));
        db.medicos := UpdateWhere(db.medicos, MedicoHasId(m.id), SetEmail(customerEmail));
      }
    }
  }

  /** The customer stage, against the mapping table. */
  method UseOrCreateCustomer(db: Db, m: Medico, customerEmail: string, o: Oracles)
    returns (customerId: Option<string>, call: CustomerCall)
    modifies db`stripeCustomers
    ensures var r := ResolveCustomer(m, customerEmail, old(db.stripeCustomers), o);
      customerId == r.customerId && call == r.call && db.stripeCustomers == r.customers
  {
    var stripeCustomers := Filter(db.stripeCustomers, LinkOwnedBy(m.id));
    if stripeCustomers != [] {
      customerId := stripeCustomers[0].customerId;
      call := NoCustomerCall;
      if !Truthy(customerId) {
        return None, call;
      }
      if stripeCustomers[0].email != Some(customerEmail) {
        call := CustomerUpdate(customerId.value, customerEmail);
        if !o.customerUpdateFails && !o.mappingWriteFails {
          db.stripeCustomers := UpdateWhere(db.stripeCustomers, LinkOwnedBy(m.id), SetLinkEmail(customerEmail));
        }
      }
    } else {
      call := CustomerCreate(customerEmail, m.nome, map["medicoId" := m.id]);
      if o.createdCustomer.None? {
        return None, call;
      }
      customerId := o.createdCustomer;
      if o.insertFails {
        return None, call;
      }
      db.stripeCustomers := db.stripeCustomers + [CustomerLink(m.id, customerId, Some(customerEmail))];
    }
  }
}
