/** The tenant-level override (`GET /api/verificar-acesso`): a tenant has access
    when at least one of its doctors' logins carries `acesso_liberado`. */
module VerificarAcesso {
  import opened Text
  import opened Query
  import opened Store

  /** `.eq("instancia_id", id).eq("acesso_liberado", true)`. */
  function LiberadoNaInstancia(id: string): MedicoAuth -> bool
  {
    (a: MedicoAuth) => a.instanciaId == Some(id) && a.acessoLiberado
  }

  /** `.eq("instancia_id", id)`. */
  function DaInstancia(id: string): MedicoAuth -> bool
  {
    (a: MedicoAuth) => a.instanciaId == Some(id)
  }

  /** The `acessoLiberado` field of the answer. `cookie` is the `instanciaId` cookie;
      `queryFails` covers both a returned error and a thrown one. */
  function AcessoLiberado(cookie: Option<string>, auth: seq<MedicoAuth>, queryFails: bool): bool
  {
    if !Truthy(cookie) then false
    else if queryFails then false
    else |Filter(auth, LiberadoNaInstancia(cookie.value))| > 0
  }

  /** Without the cookie, or when the query fails, the answer is "no access" (fail closed);
      otherwise it is "some login of that tenant has the flag". */
  lemma AcessoLiberadoCases(cookie: Option<string>, auth: seq<MedicoAuth>, queryFails: bool)
    ensures !Truthy(cookie) || queryFails ==> !AcessoLiberado(cookie, auth, queryFails)
    ensures Truthy(cookie) && !queryFails ==>
      (AcessoLiberado(cookie, auth, queryFails)
       <==> exists i :: 0 <= i < |auth| && auth[i].instanciaId == cookie && auth[i].acessoLiberado)
  {
    if Truthy(cookie) && !queryFails {
      FilterNonEmpty(auth, LiberadoNaInstancia(cookie.value));
    }
  }

  /** Logins of other tenants never change the answer. */
  lemma OtherTenantsIrrelevant(id: string, auth: seq<MedicoAuth>, queryFails: bool)
    ensures AcessoLiberado(Some(id), auth, queryFails)
         == AcessoLiberado(Some(id), Filter(auth, DaInstancia(id)), queryFails)
  {
    if id != "" && !queryFails {
      var q, p := DaInstancia(id), LiberadoNaInstancia(id);
      FilterNonEmpty(auth, p);
      FilterNonEmpty(Filter(auth, q), p);
      AnyOfFilter(auth, q, p);
      assert Any(auth, p) <==> Any(auth, (x: MedicoAuth) => q(x) && p(x)) by {
        if Any(auth, p) {
          var i :| 0 <= i < |auth| && p(auth[i]);
          assert q(auth[i]) && p(auth[i]);
        }
      }
    }
  }
}
