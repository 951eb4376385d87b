/** The doctor sign-in page (`/medico/login`). Inside a signed-in tenant it looks up the
    `medicos_auth` row with the typed email in that tenant, compares the password, writes
    the doctor's session keys and sends the router to the pending redirect or to the
    doctor's agenda. */
module MedicoLogin {
  import opened Text
  import opened Query
  import opened Store
  import MedicoAuthCheck

  /** Where a successful sign-in goes when no redirect is pending. */
  const AreaPadrao: string := "/medico/area/agendamentos"

  /** The `medicos_auth` row with this email in this tenant. */
  function Credencial(email: string, instanciaId: Option<string>): MedicoAuth -> bool
  {
    (a: MedicoAuth) => a.email == email && a.instanciaId == instanciaId
  }

  /** `x || ""` on an optional string. */
  function OuVazio(o: Option<string>): (s: string)
    ensures Truthy(o) ==> s == o.value
    ensures !Truthy(o) ==> s == ""
  {
    if o.Some? then o.value else ""
  }

  /** The session keys a successful sign-in writes. */
  function SessaoDoMedico(session: map<string, string>, a: MedicoAuth, instanciaId: Option<string>): (s: map<string, string>)
    ensures s.Keys == session.Keys + {"medicoAuthId", "medicoId", "medicoNome", "medicoEmail", "medicoAutenticado"}
                      + (if Truthy(instanciaId) then {"instanciaId"} else {})
    ensures s["medicoAuthId"] == a.id && s["medicoId"] == OuVazio(a.medicoId)
    ensures s["medicoNome"] == a.nome && s["medicoEmail"] == a.email && s["medicoAutenticado"] == "true"
    ensures Truthy(instanciaId) ==> s["instanciaId"] == instanciaId.value
    ensures forall k :: k in session && k !in {"medicoAuthId", "medicoId", "medicoNome", "medicoEmail", "medicoAutenticado", "instanciaId"}
              ==> s[k] == session[k]
  {
    var s := session["medicoAuthId" := a.id]["medicoId" := OuVazio(a.medicoId)]["medicoNome" := a.nome]
               ["medicoEmail" := a.email]["medicoAutenticado" := "true"];
    if Truthy(instanciaId) then s["instanciaId" := instanciaId.value] else s
  }

  /** The outcome of a successful sign-in: the new session and the router target. */
  datatype Entrada = Entrada(sessao: map<string, string>, destino: string)

  /** A pending redirect is consumed: the key is removed and its value becomes the target;
      without one the target is the doctor's agenda and the session is left alone. */
  function Redirecionar(session: map<string, string>): (e: Entrada)
    ensures !Truthy(Get(e.sessao, "redirecionarAposLogin"))
    ensures Truthy(Get(session, "redirecionarAposLogin")) ==>
              e.destino == session["redirecionarAposLogin"] && e.sessao == session - {"redirecionarAposLogin"}
    ensures !Truthy(Get(session, "redirecionarAposLogin")) ==> e.destino == AreaPadrao && e.sessao == session
  {
    var redirecionamento := Get(session, "redirecionarAposLogin");
    if Truthy(redirecionamento) then Entrada(session - {"redirecionarAposLogin"}, redirecionamento.value)
    else Entrada(session, AreaPadrao)
  }

  /** `onSubmit`: `None` when the lookup failed (`falha`), did not find exactly one row, or
      the password differs; otherwise the new session and target. */
  function Entrar(session: map<string, string>, instanciaId: Option<string>, usuario: string, senha: string,
                  auth: seq<MedicoAuth>, falha: bool): (r: Option<Entrada>)
    ensures r.Some? ==> !falha && exists i :: 0 <= i < |auth| && Credencial(usuario, instanciaId)(auth[i]) && auth[i].senha == senha
    ensures r.Some? ==> !Truthy(Get(r.value.sessao, "redirecionarAposLogin"))
  {
    var medico := Single(auth, Credencial(usuario, instanciaId));
    if falha || medico.None? || medico.value.senha != senha then None
    else Some(Redirecionar(SessaoDoMedico(session, medico.value, instanciaId)))
  }

  /** With no failure and exactly one row for this email in the tenant, the sign-in
      succeeds iff the password matches. */
  lemma EntrarDecide(session: map<string, string>, instanciaId: Option<string>, usuario: string, senha: string,
                     auth: seq<MedicoAuth>, i: int)
    requires 0 <= i < |auth| && auth[i].email == usuario && auth[i].instanciaId == instanciaId
    requires forall j :: 0 <= j < |auth| && j != i ==> !(auth[j].email == usuario && auth[j].instanciaId == instanciaId)
    ensures Entrar(session, instanciaId, usuario, senha, auth, false).Some? <==> auth[i].senha == senha
    ensures Entrar(session, instanciaId, usuario, senha, auth, false).Some? ==>
              Entrar(session, instanciaId, usuario, senha, auth, false).value == Redirecionar(SessaoDoMedico(session, auth[i], instanciaId))
  {
    SingleOfOnlyMatch(auth, Credencial(usuario, instanciaId), i);
  }

  /** Two rows with the same email in the tenant make `.single()` fail, so nobody with that
      email can sign in. */
  lemma EmailDuplicadoNega(session: map<string, string>, instanciaId: Option<string>, usuario: string, senha: string,
                           auth: seq<MedicoAuth>, falha: bool, i: int, j: int)
    requires 0 <= i < j < |auth|
    requires Credencial(usuario, instanciaId)(auth[i]) && Credencial(usuario, instanciaId)(auth[j])
    ensures Entrar(session, instanciaId, usuario, senha, auth, falha).None?
  {
    TwoMatchesNoSingle(auth, Credencial(usuario, instanciaId), i, j);
  }

  /** The keys the doctor-area guard reads, as a successful sign-in leaves them. */
  lemma SessaoDoMedicoLida(session: map<string, string>, a: MedicoAuth, instanciaId: Option<string>)
    requires Truthy(instanciaId)
    ensures var s := Redirecionar(SessaoDoMedico(session, a, instanciaId)).sessao;
      && Get(s, "medicoAutenticado") == Some("true") && Get(s, "medicoEmail") == Some(a.email)
      && Get(s, "medicoId") == Some(OuVazio(a.medicoId)) && Get(s, "medicoAuthId") == Some(a.id)
      && Get(s, "instanciaId") == instanciaId
  {
    var s0 := SessaoDoMedico(session, a, instanciaId);
    var s := Redirecionar(s0).sessao;
    assert s.Keys >= s0.Keys - {"redirecionarAposLogin"};
    assert forall k :: k in s ==> s[k] == s0[k];
  }

  /** When the lookup finds `a` and the password is `a`'s, the sign-in is as `a`. */
  lemma EntrarComo(session: map<string, string>, instanciaId: Option<string>, usuario: string, senha: string,
                   auth: seq<MedicoAuth>, a: MedicoAuth)
    requires Single(auth, Credencial(usuario, instanciaId)) == Some(a) && a.senha == senha
    ensures a.email == usuario && a.instanciaId == instanciaId
    ensures Entrar(session, instanciaId, usuario, senha, auth, false) == Some(Redirecionar(SessaoDoMedico(session, a, instanciaId)))
  {
    assert Credencial(usuario, instanciaId)(a);
  }

  /** The session a sign-in as `a` leaves passes the doctor-area guard when the id lookup
      finds `a` and `a` has an id, an email and a doctor and belongs to the tenant. */
  lemma SessaoDoMedicoAbre(session: map<string, string>, a: MedicoAuth, instanciaId: Option<string>, auth: seq<MedicoAuth>)
    requires Truthy(instanciaId) && a.instanciaId == instanciaId
    requires a.id != "" && a.email != "" && Truthy(a.medicoId)
    requires Single(auth, AuthHasId(a.id)) == Some(a)
    ensures MedicoAuthCheck.Verificar(Redirecionar(SessaoDoMedico(session, a, instanciaId)).sessao, auth, false)
              == MedicoAuthCheck.Resultado(true, true)
  {
    SessaoDoMedicoLida(session, a, instanciaId);
    MedicoAuthCheck.SessaoVinculadaConcede(Redirecionar(SessaoDoMedico(session, a, instanciaId)).sessao, auth, a);
  }

  /** A successful sign-in passes the doctor-area guard on the next page, provided the
      `medicos_auth` ids are unique, the row has an id, an email and a doctor, and the
      tenant lookup does not fail. */
  lemma EntrarAbreAreaDoMedico(session: map<string, string>, instanciaId: Option<string>, usuario: string,
                               senha: string, auth: seq<MedicoAuth>, i: int)
    requires Truthy(instanciaId) && UniqueKeys(AuthIds(auth))
    requires 0 <= i < |auth| && Single(auth, Credencial(usuario, instanciaId)) == Some(auth[i]) && auth[i].senha == senha
    requires auth[i].id != "" && auth[i].email != "" && Truthy(auth[i].medicoId)
    ensures Entrar(session, instanciaId, usuario, senha, auth, false).Some?
    ensures MedicoAuthCheck.Verificar(Entrar(session, instanciaId, usuario, senha, auth, false).value.sessao, auth, false)
              == MedicoAuthCheck.Resultado(true, true)
  {
    EntrarComo(session, instanciaId, usuario, senha, auth, auth[i]);
    OnlyRowWithId(auth, i);
    SessaoDoMedicoAbre(session, auth[i], instanciaId, auth);
  }

  /** The page's state. */
  class LoginPage {
    /** The browser's `sessionStorage`. */
    var sessao: map<string, string>
    var instanciaId: Option<string>
    var instanciaNome: Option<string>
    var isLoading: bool
    /** The last `router.push` target, if any. */
    var destino: Option<string>
    /** Whether the error toast was shown by the last submit. */
    var erro: bool

    constructor(session: map<string, string>)
      ensures sessao == session && instanciaId == None && instanciaNome == None
      ensures !isLoading && destino == None && !erro
    {
      sessao, instanciaId, instanciaNome := session, None, None;
      isLoading, destino, erro := false, None, false;
    }

    /** The sign-in form is shown only inside a tenant. */
    predicate Formulario()
      reads this
    {
      Truthy(instanciaId)
    }

    /** The mount effect: read the tenant from the session; without one, go to `/login`. */
    method Montar()
      modifies this
      ensures instanciaId == Get(sessao, "instanciaId") && instanciaNome == Get(sessao, "instanciaNome")
      ensures destino == if Formulario() then old(destino) else Some("/login")
      ensures sessao == old(sessao) && isLoading == old(isLoading) && erro == old(erro)
    {
      var nome := Get(sessao, "instanciaNome");
      var id := Get(sessao, "instanciaId");
      instanciaNome := nome;
      instanciaId := id;
      if !Truthy(id) {
        destino := Some("/login");
      }
    }

    /** The `sessionStorage` writes of a successful sign-in as `a`. */
    method GravarSessao(a: MedicoAuth)
      modifies this
      ensures sessao == SessaoDoMedico(old(sessao), a, instanciaId)
      ensures destino == old(destino) && erro == old(erro) && isLoading == old(isLoading)
      ensures instanciaId == old(instanciaId) && instanciaNome == old(instanciaNome)
    {
      sessao := sessao["medicoAuthId" := a.id];
      sessao := sessao["medicoId" := OuVazio(a.medicoId)];
      sessao := sessao["medicoNome" := a.nome];
      sessao := sessao["medicoEmail" := a.email];
      sessao := sessao["medicoAutenticado" := "true"];
      if Truthy(instanciaId) {
        sessao := sessao["instanciaId" := instanciaId.value];
      }
    }

    /** Follow and clear a pending redirect, or go to the doctor's agenda. */
    method SeguirRedirecionamento()
      modifies this
      ensures sessao == Redirecionar(old(sessao)).sessao && destino == Some(Redirecionar(old(sessao)).destino)
      ensures erro == old(erro) && isLoading == old(isLoading)
      ensures instanciaId == old(instanciaId) && instanciaNome == old(instanciaNome)
    {
      var redirecionamento := Get(sessao, "redirecionarAposLogin");
      if Truthy(redirecionamento) {
        sessao := sessao - {"redirecionarAposLogin"};
        destino := Some(redirecionamento.value);
      } else {
        destino := Some(AreaPadrao);
      }
    }

    /** `onSubmit`: on success the session and route follow `Entrar`; on any failure the
        error toast is shown and neither the session nor the route changes. */
    method OnSubmit(usuario: string, senha: string, auth: seq<MedicoAuth>, falha: bool)
      requires Formulario()
      modifies this
      ensures var r := Entrar(old(sessao), instanciaId, usuario, senha, auth, falha);
        && (r.Some? ==> sessao == r.value.sessao && destino == Some(r.value.destino) && !erro)
        && (r.None? ==> sessao == old(sessao) && destino == old(destino) && erro)
      ensures !isLoading && instanciaId == old(instanciaId) && instanciaNome == old(instanciaNome)
    {
      isLoading := true;
      var medico := Single(auth, Credencial(usuario, instanciaId));
      if falha || medico.None? || medico.value.senha != senha {
        erro := true;
        isLoading := false;
        return;
      }
      GravarSessao(medico.value);
      SeguirRedirecionamento();
      erro := false;
      isLoading := false;
    }
  }
}
