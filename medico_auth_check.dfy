/** The doctor-area guard (`MedicoAuthCheck`): a doctor must be signed in and, when the
    session names a tenant, linked to that tenant through the `medicos_auth` row. Anything
    else, including a failed lookup, sends the router to `/medico/login`. */
module MedicoAuthCheck {
  import opened Text
  import opened Query
  import opened Store
  import opened AuthGate

  /** The session carries `medicoAutenticado = "true"`, an email and a doctor id. */
  predicate Autenticado(session: map<string, string>)
  {
    Get(session, "medicoAutenticado") == Some("true")
    && Truthy(Get(session, "medicoEmail")) && Truthy(Get(session, "medicoId"))
  }

  /** `medicoAuthId || medicoId`: the id looked up in `medicos_auth`. */
  function ChaveDeBusca(session: map<string, string>): (k: string)
    requires Truthy(Get(session, "medicoId"))
    ensures k != ""
    ensures Truthy(Get(session, "medicoAuthId")) ==> k == Get(session, "medicoAuthId").value
    ensures !Truthy(Get(session, "medicoAuthId")) ==> k == Get(session, "medicoId").value
  {
    var medicoAuthId := Get(session, "medicoAuthId");
    if Truthy(medicoAuthId) then medicoAuthId.value else Get(session, "medicoId").value
  }

  /** The outcome of `verificarAutenticacao`: granted or not, and whether `medicos_auth`
      was read. */
  datatype Resultado = Resultado(concedido: bool, consultou: bool)

  /** The decision; `falha` is a lookup that returned an error or threw. `.maybeSingle()`
      with several matching rows also errors, so any lookup without exactly one row denies. */
  function Verificar(session: map<string, string>, auth: seq<MedicoAuth>, falha: bool): Resultado
  {
    if !Autenticado(session) then Resultado(false, false)
    else
      var instanciaId := Get(session, "instanciaId");
      if !Truthy(instanciaId) then Resultado(true, false)
      else Consulta(Single(auth, AuthHasId(ChaveDeBusca(session))), instanciaId, falha)
  }

  /** The tenant-link check of the `try` block on the looked-up row. */
  function Consulta(medicoAuth: Option<MedicoAuth>, instanciaId: Option<string>, falha: bool): (r: Resultado)
    ensures r.consultou
    ensures r.concedido ==> !falha && medicoAuth.Some? && medicoAuth.value.instanciaId == instanciaId
  {
    if falha || medicoAuth.None? then Resultado(false, true)
    else Resultado(Truthy(medicoAuth.value.instanciaId) && medicoAuth.value.instanciaId == instanciaId, true)
  }

  /** Without a signed-in doctor the guard denies without reading anything. */
  lemma NaoAutenticadoNegado(session: map<string, string>, auth: seq<MedicoAuth>, falha: bool)
    requires !Autenticado(session)
    ensures Verificar(session, auth, falha) == Resultado(false, false)
  {
  }

  /** Without a tenant in the session a signed-in doctor passes without a lookup. */
  lemma SemInstanciaConcedido(session: map<string, string>, auth: seq<MedicoAuth>, falha: bool)
    requires Autenticado(session) && !Truthy(Get(session, "instanciaId"))
    ensures Verificar(session, auth, falha) == Resultado(true, false)
  {
  }

  /** Some `medicos_auth` row with id `chave` is linked to tenant `instanciaId`. */
  predicate Vinculado(auth: seq<MedicoAuth>, chave: string, instanciaId: Option<string>)
  {
    exists i :: 0 <= i < |auth| && auth[i].id == chave && auth[i].instanciaId == instanciaId
  }

  /** A granted lookup found a row with the looked-up id linked to the tenant. */
  lemma ConsultaSound(auth: seq<MedicoAuth>, chave: string, instanciaId: Option<string>, falha: bool)
    requires Consulta(Single(auth, AuthHasId(chave)), instanciaId, falha).concedido
    ensures !falha && Vinculado(auth, chave, instanciaId)
  {
    var a := Single(auth, AuthHasId(chave)).value;
    var i :| 0 <= i < |auth| && auth[i] == a;
  }

  /** With a tenant in the session and unique `medicos_auth` ids, a signed-in doctor passes
      iff the lookup of `medicoAuthId` (or of `medicoId` when that is missing) did not fail
      and found a row linked to that tenant. */
  lemma VinculoDecide(session: map<string, string>, auth: seq<MedicoAuth>, falha: bool)
    requires Autenticado(session) && Truthy(Get(session, "instanciaId"))
    requires UniqueKeys(AuthIds(auth))
    ensures var k, inst := ChaveDeBusca(session), Get(session, "instanciaId");
      Verificar(session, auth, falha).consultou
      && (Verificar(session, auth, falha).concedido <==> !falha && Vinculado(auth, k, inst))
  {
    var k, inst := ChaveDeBusca(session), Get(session, "instanciaId");
    if Consulta(Single(auth, AuthHasId(k)), inst, falha).concedido {
      ConsultaSound(auth, k, inst, falha);
    }
    if !falha && Vinculado(auth, k, inst) {
      var i :| 0 <= i < |auth| && auth[i].id == k && auth[i].instanciaId == inst;
      OnlyRowWithId(auth, i);
    }
  }

  /** The found row linked to the session's tenant is granted. */
  lemma ConsultaConcede(a: MedicoAuth, instanciaId: Option<string>)
    requires Truthy(a.instanciaId) && a.instanciaId == instanciaId
    ensures Consulta(Some(a), instanciaId, false) == Resultado(true, true)
  {
  }

  /** A session naming the `medicos_auth` row `a`, which the id lookup finds and whose
      tenant is the session's, is granted after a lookup. */
  lemma SessaoVinculadaConcede(session: map<string, string>, auth: seq<MedicoAuth>, a: MedicoAuth)
    requires a.id != "" && Single(auth, AuthHasId(a.id)) == Some(a)
    requires Autenticado(session) && Truthy(Get(session, "instanciaId"))
    requires Get(session, "medicoAuthId") == Some(a.id) && a.instanciaId == Get(session, "instanciaId")
    ensures Verificar(session, auth, false) == Resultado(true, true)
  {
    assert ChaveDeBusca(session) == a.id;
    ConsultaConcede(a, Get(session, "instanciaId"));
  }

  /** A failed lookup always denies. */
  lemma FalhaNega(session: map<string, string>, auth: seq<MedicoAuth>)
    ensures !Verificar(session, auth, true).concedido || !Truthy(Get(session, "instanciaId"))
  {
  }

  /** The effect: grant, or send the router to `/medico/login` and stay in loading. */
  method VerificarAutenticacao(g: Gate, session: map<string, string>, auth: seq<MedicoAuth>, falha: bool)
    requires g.Valid() && !g.isAutenticado && g.destino == None
    modifies g
    ensures g.Valid()
    ensures g.isAutenticado == Verificar(session, auth, falha).concedido
    ensures g.destino == if g.isAutenticado then None else Some("/medico/login")
  {
    var medicoAutenticado := Get(session, "medicoAutenticado");
    var medicoEmail := Get(session, "medicoEmail");
    var medicoId := Get(session, "medicoId");
    var instanciaId := Get(session, "instanciaId");
    if medicoAutenticado != Some("true") || !Truthy(medicoEmail) || !Truthy(medicoId) {
      g.Negar("/medico/login");
      return;
    }
    if Truthy(instanciaId) {
      if falha {
        g.Negar("/medico/login");
        return;
      }
      var medicoAuth := Single(auth, AuthHasId(ChaveDeBusca(session)));
      if medicoAuth.None? || !Truthy(medicoAuth.value.instanciaId) || medicoAuth.value.instanciaId != instanciaId {
        g.Negar("/medico/login");
        return;
      }
    }
    g.Conceder();
  }
}
