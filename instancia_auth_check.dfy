/** The tenant guard of the clinic pages (`InstanciaAuthCheck`): the sign-in, admin and
    doctor-area routes pass; every other page needs a signed-in tenant, or the router is
    sent to `/login`. */
module InstanciaAuthCheck {
  import opened Text
  import opened AuthGate

  /** The routes that bypass the guard. */
  const RotasLivres: seq<string> := ["/login", "/admin-secreto", "/medico"]

  /** The bypass as written: any pathname that merely starts with one of the routes. */
  predicate RotaLivreAsWritten(pathname: string)
  {
    StartsWith(pathname, "/login") || StartsWith(pathname, "/admin-secreto") || StartsWith(pathname, "/medico")
  }

  /** `pathname` is `rota` or a page below it. */
  predicate SobRota(pathname: string, rota: string)
  {
    pathname == rota || StartsWith(pathname, rota + "/")
  }

  /** The bypass as intended: the routes themselves and the pages below them. */
  predicate RotaLivre(pathname: string)
  {
    exists i :: 0 <= i < |RotasLivres| && SobRota(pathname, RotasLivres[i])
  }

  /** The session marks a signed-in tenant. */
  predicate InstanciaAutenticada(session: map<string, string>)
  {
    Get(session, "instanciaAutenticada") == Some("true") && Truthy(Get(session, "instanciaId"))
  }

  /** The guard's decision with the bypass as written. */
  function ConcedeAsWritten(pathname: string, session: map<string, string>): (ok: bool)
    ensures RotaLivreAsWritten(pathname) ==> ok
    ensures !RotaLivreAsWritten(pathname) ==> (ok <==> InstanciaAutenticada(session))
  {
    if RotaLivreAsWritten(pathname) then true else InstanciaAutenticada(session)
  }

  /** The guard's decision: a free route, or a signed-in tenant. */
  function Concede(pathname: string, session: map<string, string>): (ok: bool)
    ensures RotaLivre(pathname) ==> ok
    ensures !RotaLivre(pathname) ==> (ok <==> InstanciaAutenticada(session))
  {
    if RotaLivre(pathname) then true else InstanciaAutenticada(session)
  }

  /** As written, the tenant's doctor list `/medicos` opens with an empty session, because
      it starts with `/medico`. */
  lemma MedicosBypassedAsWritten(pathname: string, session: map<string, string>)
    requires pathname == "/medicos" && session == map[]
    ensures ConcedeAsWritten(pathname, session)
    ensures !InstanciaAutenticada(session)
  {
    assert pathname[..|"/medico"|] == "/medico";
  }

  /** With whole-segment matching, `/medicos` needs a signed-in tenant. */
  lemma MedicosGuarded(pathname: string, session: map<string, string>)
    requires pathname == "/medicos"
    ensures Concede(pathname, session) <==> InstanciaAutenticada(session)
  {
    forall i | 0 <= i < |RotasLivres|
      ensures !SobRota(pathname, RotasLivres[i])
    {
      assert pathname[1] == 'm' && pathname[7] == 's';
    }
  }

  /** The corrected bypass never admits more than the written one, and still admits the
      sign-in page, the admin pages and the whole doctor area. */
  lemma CorrectedBypassNarrower(pathname: string)
    ensures RotaLivre(pathname) ==> RotaLivreAsWritten(pathname)
    ensures pathname == "/login" || StartsWith(pathname, "/admin-secreto/") || StartsWith(pathname, "/medico/")
            ==> RotaLivre(pathname)
  {
    if RotaLivre(pathname) {
      var i :| 0 <= i < |RotasLivres| && SobRota(pathname, RotasLivres[i]);
      var r := RotasLivres[i];
      if pathname != r {
        assert pathname[..|r|] == (r + "/")[..|r|];
      }
    }
    if pathname == "/login" {
      assert SobRota(pathname, RotasLivres[0]);
    } else if StartsWith(pathname, "/admin-secreto/") {
      assert SobRota(pathname, RotasLivres[1]);
    } else if StartsWith(pathname, "/medico/") {
      assert SobRota(pathname, RotasLivres[2]);
    }
  }

  /** The effect as written: grant (leaving the loading state) or send the router to `/login`. */
  method Verificar(g: Gate, pathname: string, session: map<string, string>)
    requires g.Valid() && !g.isAutenticado && g.destino == None
    modifies g
    ensures g.Valid()
    ensures g.isAutenticado == ConcedeAsWritten(pathname, session)
    ensures g.destino == if ConcedeAsWritten(pathname, session) then None else Some("/login")
  {
    if RotaLivreAsWritten(pathname) {
      g.Conceder();
      return;
    }
    var instanciaAutenticada := Get(session, "instanciaAutenticada");
    var instanciaId := Get(session, "instanciaId");
    if instanciaAutenticada != Some("true") || !Truthy(instanciaId) {
      g.Negar("/login");
      return;
    }
    g.Conceder();
  }

  /** The same effect with whole-segment route matching. */
  method VerificarCorrigido(g: Gate, pathname: string, session: map<string, string>)
    requires g.Valid() && !g.isAutenticado && g.destino == None
    modifies g
    ensures g.Valid()
    ensures g.isAutenticado == Concede(pathname, session)
    ensures g.destino == if Concede(pathname, session) then None else Some("/login")
  {
    if RotaLivre(pathname) {
      g.Conceder();
      return;
    }
    if !InstanciaAutenticada(session) {
      g.Negar("/login");
      return;
    }
    g.Conceder();
  }
}
