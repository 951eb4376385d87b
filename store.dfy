/** The application's database: the tables the modelled code reads and
    writes, each a sequence of rows. The subscription tables are kept newest
    first, which is the order every subscription query asks for. */
module Store {
  import opened Text
  import opened Query
  import opened Subscriptions

  /** A row of `medicos`. */
  datatype Medico = Medico(
    id: string,
    nome: string,
    especialidade: string,
    email: Option<string>,
    crm: string,
    telefone: string,
    instanciaId: Option<string>)

  /** A row of `medicos_auth`: a doctor's login, tenant link and manual override. */
  datatype MedicoAuth = MedicoAuth(
    id: string,
    email: string,
    senha: string,
    nome: string,
    medicoId: Option<string>,
    instanciaId: Option<string>,
    acessoLiberado: bool)

  /** A row of `instancias`: a tenant clinic. */
  datatype Instancia = Instancia(
    id: string,
    nome: string,
    usuario: string,
    senha: string,
    slug: string,
    email: string,
    ativo: bool)

  /** A row of `stripe_customers` (owner = doctor) or `stripe_customers_instancia` (owner = tenant). */
  datatype CustomerLink = CustomerLink(owner: string, customerId: Option<string>, email: Option<string>)

  function MedicoIds(rows: seq<Medico>): (ids: seq<string>)
    ensures |ids| == |rows| && forall i :: 0 <= i < |rows| ==> ids[i] == rows[i].id
  {
    if rows == [] then [] else [rows[0].id] + MedicoIds(rows[1..])
  }

  function AuthIds(rows: seq<MedicoAuth>): (ids: seq<string>)
    ensures |ids| == |rows| && forall i :: 0 <= i < |rows| ==> ids[i] == rows[i].id
  {
    if rows == [] then [] else [rows[0].id] + AuthIds(rows[1..])
  }

  function InstanciaIds(rows: seq<Instancia>): (ids: seq<string>)
    ensures |ids| == |rows| && forall i :: 0 <= i < |rows| ==> ids[i] == rows[i].id
  {
    if rows == [] then [] else [rows[0].id] + InstanciaIds(rows[1..])
  }

  /** `.eq("id", id)` on `medicos`. */
  function MedicoHasId(id: string): Medico -> bool
  {
    (m: Medico) => m.id == id
  }

  /** `.eq("id", id)` on `instancias`. */
  function InstanciaHasId(id: string): Instancia -> bool
  {
    (t: Instancia) => t.id == id
  }

  /** The customer link of one owner, a doctor or a tenant. */
  function LinkOwnedBy(owner: string): CustomerLink -> bool
  {
    (c: CustomerLink) => c.owner == owner
  }

  /** `.eq("id", id)` on `medicos_auth`. */
  function AuthHasId(id: string): MedicoAuth -> bool
  {
    (a: MedicoAuth) => a.id == id
  }
  /** With unique ids, looking up a row's id finds exactly that row. */
  lemma {:induction false} OnlyRowWithId(auth: seq<MedicoAuth>, i: int)
    requires UniqueKeys(AuthIds(auth)) && 0 <= i < |auth|
    ensures Single(auth, AuthHasId(auth[i].id)) == Some(auth[i])
  {
    forall j | 0 <= j < |auth| && j != i
      ensures !AuthHasId(auth[i].id)(auth[j])
    {
      assert AuthIds(auth)[i] == auth[i].id && AuthIds(auth)[j] == auth[j].id;
    }
    SingleOfOnlyMatch(auth, AuthHasId(auth[i].id), i);
  }

  predicate UniqueKeys(ids: seq<string>)
  {
    forall i, j :: 0 <= i < j < |ids| ==> ids[i] != ids[j]
  }

  /** Appending a key no row has keeps the keys unique. */
  lemma AppendFreshKey(ids: seq<string>, k: string)
    requires UniqueKeys(ids) && k !in ids
    ensures UniqueKeys(ids + [k]) && UniqueKeys([k] + ids)
  {
  }

  /** Rewrites that keep the key keep the doctors' keys. */
  lemma UpdateKeepsMedicoIds(rows: seq<Medico>, p: Medico -> bool, f: Medico -> Medico)
    requires forall m :: f(m).id == m.id
    ensures MedicoIds(UpdateWhere(rows, p, f)) == MedicoIds(rows)
  {
    var a, b := MedicoIds(UpdateWhere(rows, p, f)), MedicoIds(rows);
    assert forall k :: 0 <= k < |a| ==> a[k] == b[k];
  }

  /** Rewrites that keep the key keep the logins' keys. */
  lemma UpdateKeepsAuthIds(rows: seq<MedicoAuth>, p: MedicoAuth -> bool, f: MedicoAuth -> MedicoAuth)
    requires forall m :: f(m).id == m.id
    ensures AuthIds(UpdateWhere(rows, p, f)) == AuthIds(rows)
  {
    var a, b := AuthIds(UpdateWhere(rows, p, f)), AuthIds(rows);
    assert forall k :: 0 <= k < |a| ==> a[k] == b[k];
  }

  class Db {
    var assinaturas: seq<Subscription>
    var assinaturasInstancia: seq<Subscription>
    var medicos: seq<Medico>
    var medicosAuth: seq<MedicoAuth>
    var instancias: seq<Instancia>
    var stripeCustomers: seq<CustomerLink>
    var stripeCustomersInstancia: seq<CustomerLink>

    /** Primary keys are unique in every table that has one. */
    predicate Valid()
      reads this
    {
      UniqueIds(assinaturas) && UniqueIds(assinaturasInstancia)
      && UniqueKeys(MedicoIds(medicos)) && UniqueKeys(AuthIds(medicosAuth))
      && UniqueKeys(InstanciaIds(instancias))
    }

    constructor ()
      ensures Valid()
      ensures assinaturas == [] && assinaturasInstancia == [] && medicos == []
      ensures medicosAuth == [] && instancias == []
      ensures stripeCustomers == [] && stripeCustomersInstancia == []
    {
      assinaturas, assinaturasInstancia := [], [];
      medicos, medicosAuth, instancias := [], [], [];
      stripeCustomers, stripeCustomersInstancia := [], [];
    }

    /** `.insert(m)` on `medicos` with a fresh key. */
    method InserirMedico(m: Medico)
      requires Valid() && m.id !in MedicoIds(medicos)
      modifies this`medicos
      ensures Valid() && medicos == old(medicos) + [m]
    {
      AppendFreshKey(MedicoIds(medicos), m.id);
      assert MedicoIds(medicos + [m]) == MedicoIds(medicos) + [m.id];
      medicos := medicos + [m];
    }

    /** `.update(...)` on the `medicos_auth` rows matching `p`, keeping their keys. */
    method AtualizarAuth(p: MedicoAuth -> bool, f: MedicoAuth -> MedicoAuth)
      requires Valid() && forall a :: f(a).id == a.id
      modifies this`medicosAuth
      ensures Valid() && medicosAuth == UpdateWhere(old(medicosAuth), p, f)
    {
      UpdateKeepsAuthIds(medicosAuth, p, f);
      medicosAuth := UpdateWhere(medicosAuth, p, f);
    }

    /** `.insert(a)` on `medicos_auth` with a fresh key. */
    method InserirAuth(a: MedicoAuth)
      requires Valid() && a.id !in AuthIds(medicosAuth)
      modifies this`medicosAuth
      ensures Valid() && medicosAuth == old(medicosAuth) + [a]
    {
      AppendFreshKey(AuthIds(medicosAuth), a.id);
      assert AuthIds(medicosAuth + [a]) == AuthIds(medicosAuth) + [a.id];
      medicosAuth := medicosAuth + [a];
    }
  }
}
