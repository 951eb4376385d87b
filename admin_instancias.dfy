/** The hidden administration page (`/admin-secreto/instancias`): it creates
    tenants and doctors, links doctors to tenants, deletes tenants, and flips
    a doctor's manual access override. Its list views summarise, per doctor and
    per tenant, whether access comes from a subscription or from the override. */
module AdminInstancias {
  import opened Text
  import opened Query
  import opened Subscriptions
  import opened Store
  import VerificarAcesso

  // ---------------------------------------------------------------------------
  // The slug derived from a tenant's name
  // ---------------------------------------------------------------------------

  /** What a generated slug is made of: lower-case ASCII letters, digits, `_` and `-`. */
  predicate IsSlugChar(c: char)
  {
    ('a' <= c <= 'z') || IsDigit(c) || c == '_' || c == '-'
  }

  predicate IsHyphen(c: char) { c == '-' }

  /** `replace(/[^\w\s-]/g, "")`: only word characters, white space and `-` survive. */
  function KeepSlugChars(s: string): (r: string)
    ensures forall k :: 0 <= k < |r| ==> (IsWordChar(r[k]) || IsSpace(r[k]) || r[k] == '-') && r[k] in s
  {
    if s == [] then []
    else (if IsWordChar(s[0]) || IsSpace(s[0]) || s[0] == '-' then [s[0]] else []) + KeepSlugChars(s[1..])
  }

  lemma {:induction false} KeepSlugCharsIdentity(s: string)
    requires forall k :: 0 <= k < |s| ==> IsSlugChar(s[k])
    ensures KeepSlugChars(s) == s
  {
    if s != [] {
      KeepSlugCharsIdentity(s[1..]);
    }
  }

  /** `gerarSlug`: lower-case, drop other symbols, white-space runs to `-`,
      `-` runs to one `-`, then trim. */
  function GerarSlug(nome: string): string
  {
    var kept := KeepSlugChars(LowerStr(nome));
    Trim(ReplaceRuns(ReplaceRuns(kept, IsSpace, '-'), IsHyphen, '-'))
  }

  /** Whatever the name, the slug uses only slug characters and never holds `--`. */
  lemma GerarSlugShape(nome: string)
    ensures var r := GerarSlug(nome);
      (forall k :: 0 <= k < |r| ==> IsSlugChar(r[k])) && NoDoubled(r, '-')
  {
    var kept := KeepSlugChars(LowerStr(nome));
    KeptChars(nome);
    var spaced := ReplaceRuns(kept, IsSpace, '-');
    RunsReplaced(kept, IsSpace);
    var joined := ReplaceRuns(spaced, IsHyphen, '-');
    RunsReplaced(spaced, IsHyphen);
    ReplaceRunsNoDoubleSep(spaced, IsHyphen, '-');
    TrimWithoutSpace(joined);
    assert GerarSlug(nome) == Trim(joined);
  }

  /** After lower-casing and dropping, every character is a slug character or a space. */
  lemma KeptChars(nome: string)
    ensures var kept := KeepSlugChars(LowerStr(nome));
      forall k :: 0 <= k < |kept| ==> IsSlugChar(kept[k]) || IsSpace(kept[k])
  {
    var lower := LowerStr(nome);
    var kept := KeepSlugChars(lower);
    forall k | 0 <= k < |kept|
      ensures IsSlugChar(kept[k]) || IsSpace(kept[k])
    {
      var j :| 0 <= j < |lower| && lower[j] == kept[k];
    }
  }

  /** Replacing the runs a test picks by `-` leaves only slug characters, when every
      character the test does not pick already is one. */
  lemma RunsReplaced(s: string, inRun: char -> bool)
    requires forall k :: 0 <= k < |s| ==> IsSlugChar(s[k]) || inRun(s[k])
    ensures var r := ReplaceRuns(s, inRun, '-');
      forall k :: 0 <= k < |r| ==> IsSlugChar(r[k])
  {
    var r := ReplaceRuns(s, inRun, '-');
    forall k | 0 <= k < |r|
      ensures IsSlugChar(r[k])
    {
    }
  }

  /** A slug is its own slug. */
  lemma SlugFixedPoint(t: string)
    requires forall k :: 0 <= k < |t| ==> IsSlugChar(t[k])
    requires NoDoubled(t, '-')
    ensures GerarSlug(t) == t
  {
    SlugCharsStayPut(t);
    KeepSlugCharsIdentity(t);
    ReplaceRunsIdentity(t, IsSpace, '-');
    ReplaceRunsIdentity(t, IsHyphen, '-');
    TrimWithoutSpace(t);
    assert GerarSlug(t) == Trim(ReplaceRuns(ReplaceRuns(KeepSlugChars(LowerStr(t)), IsSpace, '-'), IsHyphen, '-'));
  }

  /** Slug characters are lower case already and are not white space. */
  lemma SlugCharsStayPut(t: string)
    requires forall k :: 0 <= k < |t| ==> IsSlugChar(t[k])
    ensures LowerStr(t) == t
    ensures forall k :: 0 <= k < |t| ==> !IsSpace(t[k])
  {
    assert forall k :: 0 <= k < |t| ==> LowerStr(t)[k] == t[k];
  }

  /** Deriving the slug twice gives the same slug as deriving it once. */
  lemma GerarSlugIdempotent(nome: string)
    ensures GerarSlug(GerarSlug(nome)) == GerarSlug(nome)
  {
    GerarSlugShape(nome);
    SlugFixedPoint(GerarSlug(nome));
  }

  /** White space at the ends becomes `-` before `trim` runs, so the trim never removes it. */
  lemma OuterSpacesBecomeHyphens(nome: string)
    requires nome == " a "
    ensures GerarSlug(nome) == "-a-"
  {
    SpaceAKept(nome);
    var kept := KeepSlugChars(LowerStr(nome));
    SpaceARuns(kept);
    var spaced := ReplaceRuns(kept, IsSpace, '-');
    ReplaceRunsIdentity(spaced, IsHyphen, '-');
    TrimWithoutSpace(spaced);
  }

  /** " a " is already lower case and made of slug characters. */
  lemma SpaceAKept(nome: string)
    requires nome == " a "
    ensures KeepSlugChars(LowerStr(nome)) == " a "
  {
    assert LowerStr(" a ") == " a ";
    KeepSlugCharsIdentity("a");
    assert " a "[1..] == "a " && "a "[1..] == " " && " "[1..] == "";
    assert KeepSlugChars(" ") == " ";
    assert KeepSlugChars("a ") == "a ";
  }

  /** Each of its two spaces is a run of its own and becomes one `-`, leaving no space and
      no doubled `-`. */
  lemma SpaceARuns(kept: string)
    requires kept == " a "
    ensures var spaced := ReplaceRuns(kept, IsSpace, '-');
      spaced == "-a-"
      && (forall k :: 0 <= k < |spaced| ==> !IsSpace(spaced[k]) && (IsHyphen(spaced[k]) ==> spaced[k] == '-'))
      && (forall k :: 0 <= k < |spaced| - 1 ==> !(IsHyphen(spaced[k]) && IsHyphen(spaced[k + 1])))
  {
    var tail := kept[1..];
    var last := tail[1..];
    assert IsSpace(kept[0]) && !IsSpace(kept[1]) && !IsSpace(tail[0]) && IsSpace(last[0]) && |last| == 1;
    ReplaceRunsShortRun(last, IsSpace, '-');
    assert ReplaceRuns(last[1..], IsSpace, '-') == [];
    assert ReplaceRuns(tail, IsSpace, '-') == [tail[0]] + ReplaceRuns(last, IsSpace, '-');
    ReplaceRunsShortRun(kept, IsSpace, '-');
    var spaced := ReplaceRuns(kept, IsSpace, '-');
    assert spaced == ['-', 'a', '-'];
  }

  /** `handleChange`: one field takes the typed value, and typing the name also rewrites the slug. */
  function HandleChange(form: map<string, string>, name: string, value: string): (r: map<string, string>)
    ensures name in r && (name != "slug" || r[name] == value)
    ensures name == "nome" ==> "slug" in r && r["nome"] == value && r["slug"] == GerarSlug(value)
    ensures name != "nome" ==> r[name] == value
    ensures forall k :: k in form && k != name && (name != "nome" || k != "slug") ==> k in r && r[k] == form[k]
    ensures r.Keys == form.Keys + {name} + (if name == "nome" then {"slug"} else {})
  {
    if name == "nome" then form[name := value]["slug" := GerarSlug(value)]
    else form[name := value]
  }

  /** After typing a name, the form holds a well-formed slug for it. */
  lemma SlugFollowsNome(form: map<string, string>, value: string)
    ensures var r := HandleChange(form, "nome", value);
      var slug := r["slug"];
      (forall k :: 0 <= k < |slug| ==> IsSlugChar(slug[k])) && NoDoubled(slug, '-')
      && GerarSlug(slug) == slug
  {
    GerarSlugShape(value);
    GerarSlugIdempotent(value);
  }

  // ---------------------------------------------------------------------------
  // Forms and their validation
  // ---------------------------------------------------------------------------

  /** Why an action stopped; `Done` is the success toast. */
  datatype Reason =
    | MissingFields | PasswordsDiffer | UserTaken | WriteFailed
    | ColumnMissing | LookupFailed | NotLinked | ActiveSubscription | NotApplied | NothingSelected

  datatype Toast = Done | Failed(reason: Reason)

  /** A form field; an absent field reads as the empty string. */
  function Field(form: map<string, string>, k: string): string
  {
    if k in form then form[k] else ""
  }

  function EmptyInstanciaForm(): map<string, string>
  {
    map["nome" := "", "usuario" := "", "senha" := "", "confirmarSenha" := "", "slug" := ""]
  }

  function EmptyMedicoForm(): map<string, string>
  {
    map["usuario" := "", "senha" := "", "confirmarSenha" := "", "nome" := "", "especialidade" := "", "crm" := ""]
  }

  function UsuarioIs(u: string): Instancia -> bool
  {
    (i: Instancia) => i.usuario == u
  }

  function EmailIs(e: string): MedicoAuth -> bool
  {
    (a: MedicoAuth) => a.email == e
  }

  /** The checks `handleSubmit` runs before inserting a tenant. */
  function ValidateInstancia(form: map<string, string>, instancias: seq<Instancia>): Option<Reason>
  {
    if Field(form, "nome") == "" || Field(form, "usuario") == "" || Field(form, "senha") == "" then Some(MissingFields)
    else if Field(form, "senha") != Field(form, "confirmarSenha") then Some(PasswordsDiffer)
    else if Single(instancias, UsuarioIs(Field(form, "usuario"))).Some? then Some(UserTaken)
    else None
  }

  /** A tenant passes validation exactly when the three required fields are filled, the
      passwords agree and not exactly one tenant already uses the login. */
  lemma ValidateInstanciaCases(form: map<string, string>, instancias: seq<Instancia>)
    ensures ValidateInstancia(form, instancias).None? <==>
      Field(form, "nome") != "" && Field(form, "usuario") != "" && Field(form, "senha") != ""
      && Field(form, "senha") == Field(form, "confirmarSenha")
      && |Filter(instancias, UsuarioIs(Field(form, "usuario")))| != 1
  {
  }

  /** The login check reads with "exactly one": two tenants already sharing a login let a third through. */
  lemma {:induction false} DuplicateLoginsPassValidation(form: map<string, string>, instancias: seq<Instancia>, i: int, j: int)
    requires Field(form, "nome") != "" && Field(form, "usuario") != "" && Field(form, "senha") != ""
    requires Field(form, "senha") == Field(form, "confirmarSenha")
    requires 0 <= i < j < |instancias|
    requires instancias[i].usuario == Field(form, "usuario") && instancias[j].usuario == Field(form, "usuario")
    ensures ValidateInstancia(form, instancias).None?
  {
    TwoMatchesNoSingle(instancias, UsuarioIs(Field(form, "usuario")), i, j);
  }

  /** The inserted tenant: active, with the login's automatic e-mail. */
  function NovaInstancia(form: map<string, string>, instancias: seq<Instancia>): (t: Instancia)
    ensures t.id !in InstanciaIds(instancias)
    ensures t.email == Field(form, "usuario") + "@clinica.com" && t.ativo
    ensures t.nome == Field(form, "nome") && t.usuario == Field(form, "usuario")
    ensures t.senha == Field(form, "senha") && t.slug == Field(form, "slug")
  {
    Instancia(FreshId(InstanciaIds(instancias)), Field(form, "nome"), Field(form, "usuario"),
              Field(form, "senha"), Field(form, "slug"), Field(form, "usuario") + "@clinica.com", true)
  }

  /** The checks `handleMedicoSubmit` runs before inserting a doctor. */
  function ValidateMedico(form: map<string, string>, auth: seq<MedicoAuth>): Option<Reason>
  {
    if Field(form, "usuario") == "" || Field(form, "senha") == "" || Field(form, "nome") == ""
       || Field(form, "especialidade") == "" || Field(form, "crm") == "" then Some(MissingFields)
    else if Field(form, "senha") != Field(form, "confirmarSenha") then Some(PasswordsDiffer)
    else if Single(auth, EmailIs(Field(form, "usuario"))).Some? then Some(UserTaken)
    else None
  }

  lemma ValidateMedicoCases(form: map<string, string>, auth: seq<MedicoAuth>)
    ensures ValidateMedico(form, auth).None? <==>
      Field(form, "usuario") != "" && Field(form, "senha") != "" && Field(form, "nome") != ""
      && Field(form, "especialidade") != "" && Field(form, "crm") != ""
      && Field(form, "senha") == Field(form, "confirmarSenha")
      && |Filter(auth, EmailIs(Field(form, "usuario")))| != 1
  {
  }

  /** The inserted doctor: the login as e-mail, an empty phone, no tenant yet. */
  function NovoMedico(form: map<string, string>, medicos: seq<Medico>): (m: Medico)
    ensures m.id !in MedicoIds(medicos)
    ensures m.email == Some(Field(form, "usuario")) && m.telefone == "" && m.instanciaId.None?
    ensures m.nome == Field(form, "nome") && m.especialidade == Field(form, "especialidade")
    ensures m.crm == Field(form, "crm")
  {
    Medico(FreshId(MedicoIds(medicos)), Field(form, "nome"), Field(form, "especialidade"),
           Some(Field(form, "usuario")), Field(form, "crm"), "", None)
  }

  /** The inserted login: tied to the new doctor, no tenant, override off. */
  function NovoAuth(form: map<string, string>, medicoId: string, auth: seq<MedicoAuth>): (a: MedicoAuth)
    ensures a.id !in AuthIds(auth)
    ensures a.medicoId == Some(medicoId) && a.instanciaId.None? && !a.acessoLiberado
    ensures a.email == Field(form, "usuario") && a.senha == Field(form, "senha") && a.nome == Field(form, "nome")
  {
    MedicoAuth(FreshId(AuthIds(auth)), Field(form, "usuario"), Field(form, "senha"), Field(form, "nome"),
               Some(medicoId), None, false)
  }

  /** Removing the just-appended doctor by its fresh key restores the table. */
  lemma {:induction false} DeleteAppendedMedico(medicos: seq<Medico>, m: Medico)
    requires m.id !in MedicoIds(medicos)
    ensures DeleteWhere(medicos + [m], MedicoHasId(m.id)) == medicos
  {
    var keep := Not(MedicoHasId(m.id));
    FilterAppend(medicos, [m], keep);
    assert [m][1..] == [];
    assert Filter([m], keep) == [] + Filter([], keep);
    forall k | 0 <= k < |medicos|
      ensures keep(medicos[k])
    {
      assert MedicoIds(medicos)[k] == medicos[k].id && MedicoIds(medicos)[k] in MedicoIds(medicos);
    }
    FilterAll(medicos, keep);
  }

  /** The clean-up after a failed login insert: the doctor row just added is deleted by
      its id, which leaves the table as it was. */
  method DesfazerMedico(db: Db, before: seq<Medico>, m: Medico)
    requires db.Valid() && db.medicos == before + [m] && m.id !in MedicoIds(before)
    requires UniqueKeys(MedicoIds(before))
    modifies db`medicos
    ensures db.Valid() && db.medicos == before
  {
    DeleteAppendedMedico(before, m);
    db.medicos := DeleteWhere(db.medicos, MedicoHasId(m.id));
  }

  lemma {:induction false} FilterAll(medicos: seq<Medico>, keep: Medico -> bool)
    requires forall k :: 0 <= k < |medicos| ==> keep(medicos[k])
    ensures Filter(medicos, keep) == medicos
  {
    if medicos != [] {
      FilterAll(medicos[1..], keep);
      assert medicos == [medicos[0]] + medicos[1..];
    }
  }

  // ---------------------------------------------------------------------------
  // The list views
  // ---------------------------------------------------------------------------

  /** A row of the doctors' list. */
  datatype MedicoView = MedicoView(
    id: string,
    nome: string,
    email: string,
    medicoId: Option<string>,
    instanciaId: Option<string>,
    acessoLiberado: bool,
    temAssinatura: bool)

  /** A row of the tenants' list. */
  datatype InstanciaView = InstanciaView(id: string, nome: string, temAssinatura: bool, acessoLiberado: bool)

  /** `tem_assinatura` of a doctor: exactly one active row in `assinaturas` for the linked doctor. */
  predicate DoctorSubscribed(assinaturas: seq<Subscription>, medicoId: Option<string>)
  {
    medicoId.Some? && Single(assinaturas, OwnedActive(medicoId.value)).Some?
  }

  function ViewOfMedico(a: MedicoAuth, assinaturas: seq<Subscription>, colunaExiste: bool): MedicoView
  {
    MedicoView(a.id, a.nome, a.email, a.medicoId, a.instanciaId,
               colunaExiste && a.acessoLiberado, DoctorSubscribed(assinaturas, a.medicoId))
  }

  function ViewOfInstancia(t: Instancia, assinaturasInstancia: seq<Subscription>, auth: seq<MedicoAuth>,
                           colunaExiste: bool): InstanciaView
  {
    InstanciaView(t.id, t.nome, Single(assinaturasInstancia, OwnedActive(t.id)).Some?,
                  colunaExiste && Any(auth, VerificarAcesso.LiberadoNaInstancia(t.id)))
  }

  function MedicoViews(auth: seq<MedicoAuth>, assinaturas: seq<Subscription>, colunaExiste: bool): seq<MedicoView>
  {
    seq(|auth|, i requires 0 <= i < |auth| => ViewOfMedico(auth[i], assinaturas, colunaExiste))
  }

  function InstanciaViews(ts: seq<Instancia>, assinaturasInstancia: seq<Subscription>, auth: seq<MedicoAuth>,
                          colunaExiste: bool): seq<InstanciaView>
  {
    seq(|ts|, i requires 0 <= i < |ts| => ViewOfInstancia(ts[i], assinaturasInstancia, auth, colunaExiste))
  }

  /** The tenant's "manual access" mark agrees with the answer `/api/verificar-acesso` gives
      for that tenant, whenever the column exists. */
  lemma TenantMarkMatchesRoute(t: Instancia, assinaturasInstancia: seq<Subscription>, auth: seq<MedicoAuth>)
    requires t.id != ""
    ensures ViewOfInstancia(t, assinaturasInstancia, auth, true).acessoLiberado
        == VerificarAcesso.AcessoLiberado(Some(t.id), auth, false)
  {
    FilterNonEmpty(auth, VerificarAcesso.LiberadoNaInstancia(t.id));
  }

  /** Two active rows for one doctor hide the subscription in the list. */
  lemma TwoActiveRowsHideSubscription(a: MedicoAuth, assinaturas: seq<Subscription>, colunaExiste: bool, i: int, j: int)
    requires a.medicoId.Some? && 0 <= i < j < |assinaturas|
    requires assinaturas[i].owner == a.medicoId.value && assinaturas[i].status == Active
    requires assinaturas[j].owner == a.medicoId.value && assinaturas[j].status == Active
    ensures !ViewOfMedico(a, assinaturas, colunaExiste).temAssinatura
  {
    TwoMatchesNoSingle(assinaturas, OwnedActive(a.medicoId.value), i, j);
  }

  /** The tooltip of the status dot. */
  datatype Badge = ManualAccess | ActiveSubscriptionBadge | NoAccess

  function BadgeOf(acessoLiberado: bool, temAssinatura: bool): Badge
  {
    if acessoLiberado then ManualAccess else if temAssinatura then ActiveSubscriptionBadge else NoAccess
  }

  /** The dot is green exactly when the tooltip names a source of access, and the override
      is named first when both apply. */
  lemma BadgeAgreesWithDot(acessoLiberado: bool, temAssinatura: bool)
    ensures (acessoLiberado || temAssinatura) <==> BadgeOf(acessoLiberado, temAssinatura) != NoAccess
    ensures acessoLiberado ==> BadgeOf(acessoLiberado, temAssinatura) == ManualAccess
  {
  }

  /** The override switch is disabled while updating, without a tenant, without the column,
      or when the doctor already has a subscription. */
  predicate ToggleDisabled(v: MedicoView, isUpdating: bool, colunaExiste: bool)
  {
    isUpdating || !Truthy(v.instanciaId) || !colunaExiste || v.temAssinatura
  }

  // ---------------------------------------------------------------------------
  // Flipping a doctor's override
  // ---------------------------------------------------------------------------

  function SetAcesso(novo: bool): MedicoAuth -> MedicoAuth
  {
    (a: MedicoAuth) => a.(acessoLiberado := novo)
  }

  function ViewHasId(id: string): MedicoView -> bool
  {
    (v: MedicoView) => v.id == id
  }

  function SetViewAcesso(novo: bool): MedicoView -> MedicoView
  {
    (v: MedicoView) => v.(acessoLiberado := novo)
  }

  /** The toast and the logins table after `alterarAcessoSemAssinatura(id, novo)`.
      `updateApplied` says whether the update reached the row. */
  function Alterar(colunaExiste: bool, auth: seq<MedicoAuth>, assinaturas: seq<Subscription>, id: string,
                   novo: bool, updateFails: bool, updateApplied: bool): (Toast, seq<MedicoAuth>)
  {
    if !colunaExiste then (Failed(ColumnMissing), auth)
    else
      var info := Single(auth, AuthHasId(id));
      if info.None? then (Failed(LookupFailed), auth)
      else if !Truthy(info.value.instanciaId) then (Failed(NotLinked), auth)
      else if !novo && DoctorSubscribed(assinaturas, info.value.medicoId) then (Failed(ActiveSubscription), auth)
      else AlterarWrite(auth, id, novo, updateFails, updateApplied)
  }

  /** The write and its read-back, once the refusals are passed. */
  function AlterarWrite(auth: seq<MedicoAuth>, id: string, novo: bool, updateFails: bool, updateApplied: bool)
    : (Toast, seq<MedicoAuth>)
  {
    if updateFails then (Failed(WriteFailed), auth)
    else
      var after := if updateApplied then UpdateWhere(auth, AuthHasId(id), SetAcesso(novo)) else auth;
      var check := Single(after, AuthHasId(id));
      if check.None? then (Failed(LookupFailed), after)
      else if check.value.acessoLiberado != novo then (Failed(NotApplied), after)
      else (Done, after)
  }

  /** Reasons the page reports by throwing, which also reloads the lists. */
  predicate Thrown(r: Reason)
  {
    r == LookupFailed || r == WriteFailed || r == NotApplied
  }

  /** A linked doctor's override, set where no subscription forbids it, is written to that
      login alone and confirmed. */
  lemma {:induction false} AlterarChangesOnlyThatFlag(auth: seq<MedicoAuth>, assinaturas: seq<Subscription>, i: int, novo: bool)
    requires UniqueKeys(AuthIds(auth)) && 0 <= i < |auth|
    requires Truthy(auth[i].instanciaId)
    requires novo || !DoctorSubscribed(assinaturas, auth[i].medicoId)
    ensures Alterar(true, auth, assinaturas, auth[i].id, novo, false, true)
         == (Done, auth[i := auth[i].(acessoLiberado := novo)])
  {
    OnlyRowWithId(auth, i);
    forall j | 0 <= j < |auth| && j != i
      ensures !AuthHasId(auth[i].id)(auth[j])
    {
      assert AuthIds(auth)[i] == auth[i].id && AuthIds(auth)[j] == auth[j].id;
    }
    SetAcessoOnlyRow(auth, i, novo);
  }

  /** Writing the flag by id, where only row `i` has that id, rewrites row `i` alone, and
      the read-back finds it. */
  lemma SetAcessoOnlyRow(auth: seq<MedicoAuth>, i: int, novo: bool)
    requires 0 <= i < |auth| && forall j :: 0 <= j < |auth| && j != i ==> !AuthHasId(auth[i].id)(auth[j])
    ensures var after := UpdateWhere(auth, AuthHasId(auth[i].id), SetAcesso(novo));
      after == auth[i := auth[i].(acessoLiberado := novo)] && Single(after, AuthHasId(auth[i].id)) == Some(after[i])
  {
    var after := UpdateWhere(auth, AuthHasId(auth[i].id), SetAcesso(novo));
    assert after == auth[i := auth[i].(acessoLiberado := novo)];
    SingleOfOnlyMatch(after, AuthHasId(auth[i].id), i);
  }

  /** An update that never reached the row is caught by the read-back when the flag differs. */
  lemma {:induction false} LostUpdateIsReported(auth: seq<MedicoAuth>, assinaturas: seq<Subscription>, i: int, novo: bool)
    requires UniqueKeys(AuthIds(auth)) && 0 <= i < |auth|
    requires Truthy(auth[i].instanciaId)
    requires novo || !DoctorSubscribed(assinaturas, auth[i].medicoId)
    requires auth[i].acessoLiberado != novo
    ensures Alterar(true, auth, assinaturas, auth[i].id, novo, false, false) == (Failed(NotApplied), auth)
  {
    OnlyRowWithId(auth, i);
  }

  /** Every refusal and every failure leaves the logins table as it was, except a write that
      landed and then read back differently, which cannot happen with unique keys. */
  lemma {:induction false} AlterarFailuresWriteNothing(colunaExiste: bool, auth: seq<MedicoAuth>, assinaturas: seq<Subscription>,
                                                      id: string, novo: bool, updateFails: bool, updateApplied: bool)
    requires UniqueKeys(AuthIds(auth))
    ensures var (t, after) := Alterar(colunaExiste, auth, assinaturas, id, novo, updateFails, updateApplied);
      t.Failed? ==> after == auth
  {
    var info := Single(auth, AuthHasId(id));
    if colunaExiste && info.Some? && updateApplied {
      var i :| 0 <= i < |auth| && auth[i] == info.value;
      OnlyRowWithId(auth, i);
      if Truthy(info.value.instanciaId) && (novo || !DoctorSubscribed(assinaturas, info.value.medicoId)) && !updateFails {
        AlterarChangesOnlyThatFlag(auth, assinaturas, i, novo);
      }
    }
  }

  /** A switch the list shows enabled never hits the refusals that precede the write. */
  lemma {:induction false} EnabledToggleIsNotRefused(auth: seq<MedicoAuth>, assinaturas: seq<Subscription>, i: int,
                                                     colunaExiste: bool, updateFails: bool, updateApplied: bool)
    requires UniqueKeys(AuthIds(auth)) && 0 <= i < |auth|
    requires !ToggleDisabled(ViewOfMedico(auth[i], assinaturas, colunaExiste), false, colunaExiste)
    ensures var novo := !ViewOfMedico(auth[i], assinaturas, colunaExiste).acessoLiberado;
      var t := Alterar(colunaExiste, auth, assinaturas, auth[i].id, novo, updateFails, updateApplied).0;
      t != Failed(ColumnMissing) && t != Failed(NotLinked) && t != Failed(ActiveSubscription)
      && (!updateFails && updateApplied ==> t == Done)
  {
    OnlyRowWithId(auth, i);
    if !updateFails && updateApplied {
      var novo := !ViewOfMedico(auth[i], assinaturas, colunaExiste).acessoLiberado;
      AlterarChangesOnlyThatFlag(auth, assinaturas, i, novo);
    }
  }

  // ---------------------------------------------------------------------------
  // The page
  // ---------------------------------------------------------------------------

  /** The update that links a login to a tenant. */
  function LinkTo(instanciaId: string): MedicoAuth -> MedicoAuth
  {
    (a: MedicoAuth) => a.(instanciaId := Some(instanciaId))
  }

  function Unlink(): MedicoAuth -> MedicoAuth
  {
    (a: MedicoAuth) => a.(instanciaId := None)
  }

  /** Deleting a tenant whose logins were unlinked leaves no login pointing at it. */
  lemma UnlinkClearsTenant(auth: seq<MedicoAuth>, id: string)
    ensures !Any(UpdateWhere(auth, VerificarAcesso.DaInstancia(id), Unlink()), VerificarAcesso.DaInstancia(id))
  {
  }

  class AdminPage {
    var formData: map<string, string>
    var medicoFormData: map<string, string>
    var colunaAcessoExiste: bool
    var medicos: seq<MedicoView>
    var instancias: seq<InstanciaView>
    var medicoSelecionado: string
    var instanciaSelecionada: string

    constructor ()
      ensures formData == EmptyInstanciaForm() && medicoFormData == EmptyMedicoForm()
      ensures !colunaAcessoExiste && medicos == [] && instancias == []
      ensures medicoSelecionado == "" && instanciaSelecionada == ""
    {
      formData, medicoFormData := EmptyInstanciaForm(), EmptyMedicoForm();
      colunaAcessoExiste := false;
      medicos, instancias := [], [];
      medicoSelecionado, instanciaSelecionada := "", "";
    }

    /** `carregarDados`: the column probe always lands; the lists are rebuilt unless a load fails. */
    method Reload(db: Db, colunaExiste: bool, loadFails: bool)
      modifies this`colunaAcessoExiste, this`medicos, this`instancias
      ensures colunaAcessoExiste == colunaExiste
      ensures loadFails ==> medicos == old(medicos) && instancias == old(instancias)
      ensures !loadFails ==> medicos == MedicoViews(db.medicosAuth, db.assinaturas, colunaExiste)
      ensures !loadFails ==>
        instancias == InstanciaViews(db.instancias, db.assinaturasInstancia, db.medicosAuth, colunaExiste)
    {
      colunaAcessoExiste := colunaExiste;
      if !loadFails {
        medicos := MedicoViews(db.medicosAuth, db.assinaturas, colunaExiste);
        instancias := InstanciaViews(db.instancias, db.assinaturasInstancia, db.medicosAuth, colunaExiste);
      }
    }

    /** `handleChange`. */
    method Change(name: string, value: string)
      modifies this`formData
      ensures formData == HandleChange(old(formData), name, value)
    {
      formData := HandleChange(formData, name, value);
    }

    /** `handleSubmit`: validate, insert the tenant, clear the form. */
    method SubmitInstancia(db: Db, insertFails: bool) returns (t: Toast)
      requires db.Valid()
      modifies db`instancias, this`formData
      ensures db.Valid()
      ensures var v := ValidateInstancia(old(formData), old(db.instancias));
        (v.Some? ==> t == Failed(v.value))
        && (v.None? && insertFails ==> t == Failed(WriteFailed))
        && (v.None? && !insertFails ==> t == Done)
      ensures t == Done ==> db.instancias == old(db.instancias) + [NovaInstancia(old(formData), old(db.instancias))]
                            && formData == EmptyInstanciaForm()
      ensures t != Done ==> db.instancias == old(db.instancias) && formData == old(formData)
    {
      var v := ValidateInstancia(formData, db.instancias);
      if v.Some? {
        return Failed(v.value);
      }
      if insertFails {
        return Failed(WriteFailed);
      }
      var nova := NovaInstancia(formData, db.instancias);
      AppendFreshKey(InstanciaIds(db.instancias), nova.id);
      assert InstanciaIds(db.instancias + [nova]) == InstanciaIds(db.instancias) + [nova.id];
      db.instancias := db.instancias + [nova];
      formData := EmptyInstanciaForm();
      return Done;
    }

    /** `handleMedicoSubmit`: validate, insert the doctor, then its login; when the login
        cannot be inserted, delete the doctor again. */
    method SubmitMedico(db: Db, medicoInsertFails: bool, authInsertFails: bool, deleteFails: bool)
      returns (t: Toast)
      requires db.Valid()
      modifies db`medicos, db`medicosAuth, this`medicoFormData
      ensures db.Valid()
      ensures var v := ValidateMedico(old(medicoFormData), old(db.medicosAuth));
        (v.Some? ==> t == Failed(v.value))
        && (v.None? && (medicoInsertFails || authInsertFails) ==> t == Failed(WriteFailed))
        && (v.None? && !medicoInsertFails && !authInsertFails ==> t == Done)
      ensures var m := NovoMedico(old(medicoFormData), old(db.medicos));
        t == Done ==>
          db.medicos == old(db.medicos) + [m]
          && db.medicosAuth == old(db.medicosAuth) + [NovoAuth(old(medicoFormData), m.id, old(db.medicosAuth))]
          && medicoFormData == EmptyMedicoForm()
      ensures t != Done ==> db.medicosAuth == old(db.medicosAuth) && medicoFormData == old(medicoFormData)
      ensures (t != Done && !(ValidateMedico(old(medicoFormData), old(db.medicosAuth)).None?
                              && !medicoInsertFails && deleteFails)) ==> db.medicos == old(db.medicos)
      ensures t != Done && ValidateMedico(old(medicoFormData), old(db.medicosAuth)).None?
              && !medicoInsertFails && deleteFails ==>
                db.medicos == old(db.medicos) + [NovoMedico(old(medicoFormData), old(db.medicos))]
    {
      var v := ValidateMedico(medicoFormData, db.medicosAuth);
      if v.Some? {
        return Failed(v.value);
      }
      if medicoInsertFails {
        return Failed(WriteFailed);
      }
      var m := NovoMedico(medicoFormData, db.medicos);
      var before := db.medicos;
      db.InserirMedico(m);
      if authInsertFails {
        if !deleteFails {
          DesfazerMedico(db, before, m);
        }
        return Failed(WriteFailed);
      }
      var a := NovoAuth(medicoFormData, m.id, db.medicosAuth);
      db.InserirAuth(a);
      medicoFormData := EmptyMedicoForm();
      return Done;
    }

    /** `alterarAcessoSemAssinatura(id, novo)`. A refusal returns before any write; a thrown
        failure reloads the lists; success flips the flag in that doctor's list row only. */
    method AlterarAcesso(db: Db, id: string, novo: bool, updateFails: bool, updateApplied: bool, reloadFails: bool)
      returns (t: Toast)
      requires db.Valid()
      modifies db`medicosAuth, this`colunaAcessoExiste, this`medicos, this`instancias
      ensures db.Valid()
      ensures (t, db.medicosAuth) == Alterar(old(colunaAcessoExiste), old(db.medicosAuth), db.assinaturas,
                                              id, novo, updateFails, updateApplied)
      ensures colunaAcessoExiste == old(colunaAcessoExiste)
      ensures t == Done ==>
        medicos == UpdateWhere(old(medicos), ViewHasId(id), SetViewAcesso(novo)) && instancias == old(instancias)
      ensures (t.Failed? && !Thrown(t.reason)) || (t.Failed? && reloadFails) ==>
        medicos == old(medicos) && instancias == old(instancias)
      ensures t.Failed? && Thrown(t.reason) && !reloadFails ==>
        medicos == MedicoViews(db.medicosAuth, db.assinaturas, colunaAcessoExiste)
        && instancias == InstanciaViews(db.instancias, db.assinaturasInstancia, db.medicosAuth, colunaAcessoExiste)
    {
      if !colunaAcessoExiste {
        return Failed(ColumnMissing);
      }
      var info := Single(db.medicosAuth, AuthHasId(id));
      if info.None? {
        Reload(db, colunaAcessoExiste, reloadFails);
        return Failed(LookupFailed);
      }
      if !Truthy(info.value.instanciaId) {
        return Failed(NotLinked);
      }
      if !novo && DoctorSubscribed(db.assinaturas, info.value.medicoId) {
        return Failed(ActiveSubscription);
      }
      t := ApplyAcesso(db, id, novo, updateFails, updateApplied, reloadFails);
    }

    /** The write, the read-back and the list update of `alterarAcessoSemAssinatura`. */
    method ApplyAcesso(db: Db, id: string, novo: bool, updateFails: bool, updateApplied: bool, reloadFails: bool)
      returns (t: Toast)
      requires db.Valid()
      modifies db`medicosAuth, this`colunaAcessoExiste, this`medicos, this`instancias
      ensures db.Valid()
      ensures (t, db.medicosAuth) == AlterarWrite(old(db.medicosAuth), id, novo, updateFails, updateApplied)
      ensures t.Failed? ==> Thrown(t.reason)
      ensures colunaAcessoExiste == old(colunaAcessoExiste)
      ensures t == Done ==>
        medicos == UpdateWhere(old(medicos), ViewHasId(id), SetViewAcesso(novo)) && instancias == old(instancias)
      ensures t.Failed? && reloadFails ==> medicos == old(medicos) && instancias == old(instancias)
      ensures t.Failed? && !reloadFails ==>
        medicos == MedicoViews(db.medicosAuth, db.assinaturas, colunaAcessoExiste)
        && instancias == InstanciaViews(db.instancias, db.assinaturasInstancia, db.medicosAuth, colunaAcessoExiste)
    {
      if updateFails {
        Reload(db, colunaAcessoExiste, reloadFails);
        return Failed(WriteFailed);
      }
      if updateApplied {
        db.AtualizarAuth(AuthHasId(id), SetAcesso(novo));
      }
      var check := Single(db.medicosAuth, AuthHasId(id));
      if check.None? {
        Reload(db, colunaAcessoExiste, reloadFails);
        return Failed(LookupFailed);
      }
      if check.value.acessoLiberado != novo {
        Reload(db, colunaAcessoExiste, reloadFails);
        return Failed(NotApplied);
      }
      medicos := UpdateWhere(medicos, ViewHasId(id), SetViewAcesso(novo));
      return Done;
    }

    /** `excluirInstancia(id)`: unlink the tenant's logins (the outcome is not checked), then
        delete the tenant. */
    method ExcluirInstancia(db: Db, id: string, unlinkFails: bool, deleteFails: bool) returns (t: Toast)
      requires db.Valid()
      modifies db`medicosAuth, db`instancias
      ensures db.Valid()
      ensures t == (if deleteFails then Failed(WriteFailed) else Done)
      ensures db.medicosAuth ==
        (if unlinkFails then old(db.medicosAuth)
         else UpdateWhere(old(db.medicosAuth), VerificarAcesso.DaInstancia(id), Unlink()))
      ensures db.instancias ==
        (if deleteFails then old(db.instancias) else DeleteWhere(old(db.instancias), InstanciaHasId(id)))
      ensures !unlinkFails ==> !Any(db.medicosAuth, VerificarAcesso.DaInstancia(id))
      ensures !deleteFails ==> !Any(db.instancias, InstanciaHasId(id))
    {
      if !unlinkFails {
        db.AtualizarAuth(VerificarAcesso.DaInstancia(id), Unlink());
        UnlinkClearsTenant(old(db.medicosAuth), id);
      }
      if deleteFails {
        return Failed(WriteFailed);
      }
      var kept := DeleteWhere(db.instancias, InstanciaHasId(id));
      DeleteKeepsInstanciaKeys(db.instancias, id);
      db.instancias := kept;
      return Done;
    }

    /** `vincularMedico`: both selections are required; the chosen login gets the chosen tenant. */
    method VincularMedico(db: Db, updateFails: bool) returns (t: Toast)
      requires db.Valid()
      modifies db`medicosAuth, this`medicoSelecionado, this`instanciaSelecionada
      ensures db.Valid()
      ensures old(medicoSelecionado) == "" || old(instanciaSelecionada) == "" ==> t == Failed(NothingSelected)
      ensures old(medicoSelecionado) != "" && old(instanciaSelecionada) != "" ==>
        t == (if updateFails then Failed(WriteFailed) else Done)
      ensures t == Done ==>
        db.medicosAuth == UpdateWhere(old(db.medicosAuth), AuthHasId(old(medicoSelecionado)), LinkTo(old(instanciaSelecionada)))
        && medicoSelecionado == "" && instanciaSelecionada == ""
      ensures t != Done ==>
        (db.medicosAuth == old(db.medicosAuth)
         && medicoSelecionado == old(medicoSelecionado) && instanciaSelecionada == old(instanciaSelecionada))
    {
      if medicoSelecionado == "" || instanciaSelecionada == "" {
        return Failed(NothingSelected);
      }
      if updateFails {
        return Failed(WriteFailed);
      }
      db.AtualizarAuth(AuthHasId(medicoSelecionado), LinkTo(instanciaSelecionada));
      medicoSelecionado, instanciaSelecionada := "", "";
      return Done;
    }
  }

  /** Deleting tenants keeps the remaining keys unique. */
  lemma DeleteKeepsInstanciaKeys(ts: seq<Instancia>, id: string)
    requires UniqueKeys(InstanciaIds(ts))
    ensures UniqueKeys(InstanciaIds(DeleteWhere(ts, InstanciaHasId(id))))
  {
    var key := (t: Instancia) => t.id;
    assert DistinctKeys(ts, key) by {
      forall i, j | 0 <= i < j < |ts| ensures key(ts[i]) != key(ts[j]) {
        assert InstanciaIds(ts)[i] == ts[i].id && InstanciaIds(ts)[j] == ts[j].id;
      }
    }
    var keep := Not(InstanciaHasId(id));
    FilterKeepsDistinct(ts, key, keep);
    var f := Filter(ts, keep);
    assert DeleteWhere(ts, InstanciaHasId(id)) == f;
    forall i, j | 0 <= i < j < |f|
      ensures InstanciaIds(f)[i] != InstanciaIds(f)[j]
    {
      assert key(f[i]) != key(f[j]);
    }
  }

  /** Linking touches only the chosen login, and only its tenant. */
  lemma {:induction false} LinkTouchesOnlyChosen(auth: seq<MedicoAuth>, i: int, instanciaId: string)
    requires UniqueKeys(AuthIds(auth)) && 0 <= i < |auth|
    ensures UpdateWhere(auth, AuthHasId(auth[i].id), LinkTo(instanciaId))
         == auth[i := auth[i].(instanciaId := Some(instanciaId))]
  {
    var after := UpdateWhere(auth, AuthHasId(auth[i].id), LinkTo(instanciaId));
    forall j | 0 <= j < |auth| && j != i
      ensures after[j] == auth[j]
    {
      assert AuthIds(auth)[i] == auth[i].id && AuthIds(auth)[j] == auth[j].id;
    }
  }
}
