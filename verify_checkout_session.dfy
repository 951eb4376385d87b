/** The post-checkout confirmation (`POST /api/verify-checkout-session`): does the
    doctor or tenant now hold an "active" subscription row? Periods are not consulted. */
module VerifyCheckoutSession {
  import opened Text
  import opened Query
  import opened Subscriptions
  import opened Store

  /** The request body: `id` and `type`; a missing `type` means "instancia". */
  datatype Request = Request(id: Option<string>, kind: Option<string>)

  datatype Reply = Answer(success: bool) | Failure(status: int)

  /** The doctors linked to a tenant, `.from("medicos").eq("instancia_id", id)`. */
  function MedicoDaInstancia(id: string): Medico -> bool
  {
    (m: Medico) => m.instanciaId == Some(id)
  }

  /** `.in("medico_id", ids).eq("status", "active")`. */
  function ActiveOwnedByOneOf(ids: seq<string>): Subscription -> bool
  {
    (r: Subscription) => r.owner in ids && r.status == Active
  }

  /** The tenant-table-missing fallback: any doctor of the tenant with an "active" row. */
  function ViaMedicos(id: string, medicos: seq<Medico>, doctors: seq<Subscription>, queryFails: bool): bool
  {
    var vinculados := Filter(medicos, MedicoDaInstancia(id));
    if queryFails || vinculados == [] then false
    else Any(doctors, ActiveOwnedByOneOf(MedicoIds(vinculados)))
  }

  /** The route. `tenantTableUsable` is the outcome of the tenant-table probe, `queryFails`
      that of the lookups (a returned error), `threw` whether anything threw. */
  function Verify(req: Request, doctors: seq<Subscription>, tenants: seq<Subscription>, medicos: seq<Medico>,
                  tenantTableUsable: bool, queryFails: bool, threw: bool): Reply
  {
    if threw then Failure(500)
    else if !Truthy(req.id) then Failure(400)
    else
      var id := req.id.value;
      var kind := if req.kind.Some? then req.kind.value else "instancia";
      if kind == "medico" then Answer(!queryFails && Any(doctors, OwnedActive(id)))
      else if tenantTableUsable then Answer(!queryFails && Any(tenants, OwnedActive(id)))
      else Answer(ViaMedicos(id, medicos, doctors, queryFails))
  }

  /** A missing id is refused; only a throw gives 500; a query error answers "not active". */
  lemma VerifyErrors(req: Request, doctors: seq<Subscription>, tenants: seq<Subscription>, medicos: seq<Medico>,
                     tenantTableUsable: bool)
    ensures Verify(req, doctors, tenants, medicos, tenantTableUsable, false, true) == Failure(500)
    ensures !Truthy(req.id) ==> Verify(req, doctors, tenants, medicos, tenantTableUsable, false, false) == Failure(400)
    ensures Truthy(req.id) ==> Verify(req, doctors, tenants, medicos, tenantTableUsable, true, false) == Answer(false)
  {
  }

  /** For a doctor: success iff one of the doctor's rows is "active", whatever its period. */
  lemma DoctorVerdict(id: string, doctors: seq<Subscription>, tenants: seq<Subscription>, medicos: seq<Medico>,
                      tenantTableUsable: bool)
    requires id != ""
    ensures Verify(Request(Some(id), Some("medico")), doctors, tenants, medicos, tenantTableUsable, false, false)
            == Answer(exists i :: 0 <= i < |doctors| && doctors[i].owner == id && doctors[i].status == Active)
  {
    assert Any(doctors, OwnedActive(id))
       <==> exists i :: 0 <= i < |doctors| && doctors[i].owner == id && doctors[i].status == Active;
  }

  /** A type other than "medico", or none, takes the tenant path; with a usable tenant table
      success iff one of the tenant's rows is "active". */
  lemma TenantVerdict(id: string, kind: Option<string>, doctors: seq<Subscription>, tenants: seq<Subscription>,
                      medicos: seq<Medico>)
    requires id != "" && kind != Some("medico")
    ensures Verify(Request(Some(id), kind), doctors, tenants, medicos, true, false, false)
            == Answer(exists i :: 0 <= i < |tenants| && tenants[i].owner == id && tenants[i].status == Active)
  {
    assert Any(tenants, OwnedActive(id))
       <==> exists i :: 0 <= i < |tenants| && tenants[i].owner == id && tenants[i].status == Active;
  }

  /** Without the tenant table: success iff some doctor linked to the tenant owns an "active"
      row; a tenant without doctors is never active. */
  lemma {:induction false} FallbackVerdict(id: string, kind: Option<string>, doctors: seq<Subscription>,
                                           tenants: seq<Subscription>, medicos: seq<Medico>)
    requires id != "" && kind != Some("medico")
    ensures Verify(Request(Some(id), kind), doctors, tenants, medicos, false, false, false)
            == Answer(exists i, j :: 0 <= i < |doctors| && 0 <= j < |medicos|
                        && medicos[j].instanciaId == Some(id) && doctors[i].owner == medicos[j].id
                        && doctors[i].status == Active)
    ensures (forall j :: 0 <= j < |medicos| ==> medicos[j].instanciaId != Some(id))
            ==> Verify(Request(Some(id), kind), doctors, tenants, medicos, false, false, false) == Answer(false)
  {
    var vinculados := Filter(medicos, MedicoDaInstancia(id));
    var ids := MedicoIds(vinculados);
    if Any(doctors, ActiveOwnedByOneOf(ids)) {
      var i :| 0 <= i < |doctors| && ActiveOwnedByOneOf(ids)(doctors[i]);
      var k :| 0 <= k < |ids| && ids[k] == doctors[i].owner;
      assert vinculados[k] in vinculados;
      var j :| 0 <= j < |medicos| && medicos[j] == vinculados[k];
      assert vinculados != [];
    }
    if exists i, j :: 0 <= i < |doctors| && 0 <= j < |medicos|
                      && medicos[j].instanciaId == Some(id) && doctors[i].owner == medicos[j].id
                      && doctors[i].status == Active {
      var i, j :| 0 <= i < |doctors| && 0 <= j < |medicos|
                  && medicos[j].instanciaId == Some(id) && doctors[i].owner == medicos[j].id
                  && doctors[i].status == Active;
      assert medicos[j] in vinculados;
      var k :| 0 <= k < |vinculados| && vinculados[k] == medicos[j];
      assert ids[k] == doctors[i].owner;
      assert ActiveOwnedByOneOf(ids)(doctors[i]);
    }
    if forall j :: 0 <= j < |medicos| ==> medicos[j].instanciaId != Some(id) {
      NoneMatch(medicos, MedicoDaInstancia(id));
    }
  }

  /** The route ignores periods: an "active" row whose period ended long ago still confirms
      the checkout, although the doctor-area guard would not honour it. */
  lemma StaleActiveRowConfirms(r: Subscription, now: int)
    requires r.owner != "" && r.status == Active && r.periodEnd == Some(now - 1)
    ensures Verify(Request(Some(r.owner), Some("medico")), [r], [], [], false, false, false) == Answer(true)
    ensures !PeriodValid(r, now)
  {
    assert OwnedActive(r.owner)([r][0]);
  }
}
