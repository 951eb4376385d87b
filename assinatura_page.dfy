/** The doctor's subscription page: the four-way classification of the
    doctor's subscription rows, the lazy "mark expired" write, the guard in
    front of checkout, self-service cancellation, the remaining-days counter
    and the choice of action button. */
module AssinaturaPage {
  import opened Text
  import opened Query
  import opened Subscriptions
  import opened Store

  /** `statusAssinatura`. */
  datatype Classification = SemAssinatura | Ativa | CanceladaPeriodoValido | Expirada

  /** Active, never cancelled, still paid for. */
  function IsAtiva(now: int): Subscription -> bool
  {
    (r: Subscription) => r.status == Active && r.canceledAt.None? && PeriodValid(r, now)
  }

  /** Active, cancelled, but still inside the paid period. */
  function IsCanceladaValida(now: int): Subscription -> bool
  {
    (r: Subscription) => r.status == Active && r.canceledAt.Some? && PeriodValid(r, now)
  }

  /** What one check decides: the classification, the row shown
      (`assinaturaInfo`), and the id of the row to mark expired, if any. */
  datatype Verdict = Verdict(status: Classification, info: Option<Subscription>, expire: Option<string>)

  /** The classification of a doctor's rows, given newest first. */
  function Classify(rows: seq<Subscription>, now: int): Verdict
  {
    if rows == [] then Verdict(SemAssinatura, None, None)
    else
      match FindIndex(rows, IsAtiva(now))
      case Some(i) => Verdict(Ativa, Some(rows[i]), None)
      case None =>
        match FindIndex(rows, IsCanceladaValida(now))
        case Some(i) => Verdict(CanceladaPeriodoValido, Some(rows[i]), None)
        case None =>
          var recent := rows[0];
          if recent.status == Active && !PeriodValid(recent, now) then
            Verdict(Expirada, Some(recent), Some(recent.id))
          else if recent.status == Expired || recent.status == Canceled then
            Verdict(Expirada, Some(recent), None)
          else
            Verdict(SemAssinatura, Some(recent), None)
  }

  /** No rows: no subscription, nothing shown, nothing written. */
  lemma ClassifyEmpty(now: int)
    ensures Classify([], now) == Verdict(SemAssinatura, None, None)
  {
  }

  /** `ativa` exactly when some row is active, uncancelled and valid; the newest such row is shown. */
  lemma ClassifyAtiva(rows: seq<Subscription>, now: int)
    ensures Classify(rows, now).status == Ativa <==> Any(rows, IsAtiva(now))
    ensures Any(rows, IsAtiva(now)) ==>
      exists i :: 0 <= i < |rows| && IsAtiva(now)(rows[i]) && Classify(rows, now).info == Some(rows[i])
        && forall j :: 0 <= j < i ==> !IsAtiva(now)(rows[j])
  {
    if rows != [] {
      var f := FindIndex(rows, IsAtiva(now));
      if f.Some? {
        assert IsAtiva(now)(rows[f.value]);
      }
    }
  }

  /** Otherwise `cancelada_periodo_valido` exactly when some row is active, cancelled and valid. */
  lemma ClassifyCancelada(rows: seq<Subscription>, now: int)
    ensures Classify(rows, now).status == CanceladaPeriodoValido
      <==> !Any(rows, IsAtiva(now)) && Any(rows, IsCanceladaValida(now))
    ensures Classify(rows, now).status == CanceladaPeriodoValido ==>
      Classify(rows, now).info.Some? && IsCanceladaValida(now)(Classify(rows, now).info.value)
  {
    if rows != [] {
      var f := FindIndex(rows, IsAtiva(now));
      var g := FindIndex(rows, IsCanceladaValida(now));
      if f.None? && g.Some? {
        assert IsCanceladaValida(now)(rows[g.value]);
      }
    }
  }

  /** Only the newest row can be marked expired, and only when neither of the first two
      classes applies and it is "active"; then the class is `expirada`. An "active" newest
      row that reaches this point always has an invalid period. */
  lemma ClassifyExpireWrite(rows: seq<Subscription>, now: int)
    ensures Classify(rows, now).expire.Some? <==>
      rows != [] && !Any(rows, IsAtiva(now)) && !Any(rows, IsCanceladaValida(now)) && rows[0].status == Active
    ensures Classify(rows, now).expire.Some? ==>
      Classify(rows, now).expire == Some(rows[0].id) && Classify(rows, now).status == Expirada
      && !PeriodValid(rows[0], now)
  {
    if rows != [] && !Any(rows, IsAtiva(now)) && !Any(rows, IsCanceladaValida(now)) && rows[0].status == Active {
      assert !IsAtiva(now)(rows[0]) && !IsCanceladaValida(now)(rows[0]);
    }
  }

  /** With the first two classes ruled out, `expirada` exactly when the newest row is
      "active", "expired" or "canceled"; any other status, such as
      "active_until_period_end", falls back to `sem_assinatura` with that row shown. */
  lemma ClassifyFallback(rows: seq<Subscription>, now: int)
    requires rows != [] && !Any(rows, IsAtiva(now)) && !Any(rows, IsCanceladaValida(now))
    ensures Classify(rows, now).info == Some(rows[0])
    ensures Classify(rows, now).status == Expirada
      <==> rows[0].status in {Active, Expired, Canceled}
    ensures Classify(rows, now).status == SemAssinatura
      <==> rows[0].status == ActiveUntilPeriodEnd || rows[0].status.Other?
  {
    assert !IsAtiva(now)(rows[0]) && !IsCanceladaValida(now)(rows[0]);
  }

  /** A doctor whose provider subscription was deleted inside the paid period holds only
      an "active_until_period_end" row: this page then offers a new subscription. */
  lemma ActiveUntilPeriodEndShowsNoSubscription(r: Subscription, now: int)
    requires r.status == ActiveUntilPeriodEnd
    ensures Classify([r], now).status == SemAssinatura
  {
    assert !IsAtiva(now)(r) && !IsCanceladaValida(now)(r);
    assert !Any([r], IsAtiva(now)) && !Any([r], IsCanceladaValida(now));
  }

  /** What `iniciarAssinatura` does before any network traffic. */
  datatype CheckoutStart =
    | RedirectToLogin
    | Refused
    | RequestCheckout(medicoId: string, plano: string)

  function StartCheckout(medicoId: Option<string>, status: Classification): (c: CheckoutStart)
    ensures c.RequestCheckout? ==> Truthy(medicoId) && c.medicoId == medicoId.value && c.plano == "mensal"
    ensures c.Refused? <==> Truthy(medicoId) && (status == Ativa || status == CanceladaPeriodoValido)
    ensures c.RedirectToLogin? <==> !Truthy(medicoId)
  {
    if !Truthy(medicoId) then RedirectToLogin
    else if status == Ativa || status == CanceladaPeriodoValido then Refused
    else RequestCheckout(medicoId.value, "mensal")
  }

  /** One day in milliseconds. */
  const DayMs: int := 1000 * 60 * 60 * 24

  /** `calcularDiasRestantes`: whole days left, rounded up, never negative. */
  function DiasRestantes(end: int, now: int): (d: nat)
    ensures d * DayMs >= end - now
    ensures d > 0 ==> (d - 1) * DayMs < end - now
  {
    var diff := end - now;
    var days := -((-diff) / DayMs);
    if days < 0 then 0 else days
  }

  /** A period already over shows zero days; one ending within the next day shows one. */
  lemma DiasRestantesEdges(end: int, now: int)
    ensures end <= now ==> DiasRestantes(end, now) == 0
    ensures now < end <= now + DayMs ==> DiasRestantes(end, now) == 1
  {
  }

  /** The action button under the plan (`renderBotaoAcao`). */
  datatype Botao =
    | CancelarAssinaturaBotao(disabled: bool)
    | AguardeBotao
    | AssinarAgoraBotao(disabled: bool)

  function BotaoAcao(status: Classification, isLoading: bool): (b: Botao)
    ensures b.CancelarAssinaturaBotao? <==> status == Ativa
    ensures b.AguardeBotao? <==> status == CanceladaPeriodoValido
    ensures b.AssinarAgoraBotao? <==> status == SemAssinatura || status == Expirada
    ensures b.AguardeBotao? || b.disabled == isLoading
  {
    match status
    case Ativa => CancelarAssinaturaBotao(isLoading)
    case CanceladaPeriodoValido => AguardeBotao
    case SemAssinatura => AssinarAgoraBotao(isLoading)
    case Expirada => AssinarAgoraBotao(isLoading)
  }

  /** The subscribe button is offered exactly in the states where checkout is not refused. */
  lemma BotaoMatchesCheckoutGuard(status: Classification, isLoading: bool, medicoId: string)
    requires medicoId != ""
    ensures BotaoAcao(status, isLoading).AssinarAgoraBotao?
      <==> StartCheckout(Some(medicoId), status).RequestCheckout?
  {
  }

  /** Cancelling the row shown as `ativa` keeps access: the next check is `ativa`
      again (another such row exists) or `cancelada_periodo_valido`. */
  lemma {:induction false} CancelKeepsPaidPeriod(rows: seq<Subscription>, now: int, i: int)
    requires 0 <= i < |rows| && UniqueIds(rows)
    requires Classify(rows, now).status == Ativa && Classify(rows, now).info == Some(rows[i])
    ensures var after := UpdateWhere(rows, HasId(rows[i].id), CancelAt(now));
      Classify(after, now).status in {Ativa, CanceladaPeriodoValido}
  {
    ClassifyAtiva(rows, now);
    var f := FindIndex(rows, IsAtiva(now));
    assert rows[f.value] == rows[i];
    var after := UpdateWhere(rows, HasId(rows[i].id), CancelAt(now));
    UpdateByIdTouchesOne(rows, i, CancelAt(now));
    assert IsCanceladaValida(now)(after[i]);
    ClassifyAtiva(after, now);
    ClassifyCancelada(after, now);
  }

  /** The page's state. */
  class Page {
    var medicoId: Option<string>
    var statusAssinatura: Classification
    var assinaturaInfo: Option<Subscription>
    var error: bool
    var isLoading: bool

    constructor (medicoId: Option<string>)
      ensures this.medicoId == medicoId && statusAssinatura == SemAssinatura
      ensures assinaturaInfo.None? && !error && !isLoading
    {
      this.medicoId := medicoId;
      statusAssinatura := SemAssinatura;
      assinaturaInfo := None;
      error := false;
      isLoading := false;
    }

    /** `verificarAssinatura(id)`. `queryFails` is the outcome of the read of the doctor's
        rows; `writeFails` that of the expiry write, whose result the page ignores. */
    method VerificarAssinatura(db: Db, id: string, now: int, queryFails: bool, writeFails: bool)
      requires db.Valid()
      modifies this`statusAssinatura, this`assinaturaInfo, this`error, this`isLoading, db`assinaturas
      ensures db.Valid() && !isLoading
      ensures queryFails ==>
        statusAssinatura == SemAssinatura && assinaturaInfo == old(assinaturaInfo) && error
        && db.assinaturas == old(db.assinaturas)
      ensures !queryFails ==>
        var v := Classify(Filter(old(db.assinaturas), OwnedBy(id)), now);
        statusAssinatura == v.status && assinaturaInfo == v.info && !error
        && db.assinaturas == if v.expire.Some? && !writeFails
                             then UpdateWhere(old(db.assinaturas), HasId(v.expire.value), ExpireAt(now))
                             else old(db.assinaturas)
    {
      isLoading := true;
      error := false;
      if queryFails {
        error := true;
        statusAssinatura := SemAssinatura;
        isLoading := false;
        return;
      }
      var todas := Filter(db.assinaturas, OwnedBy(id));
      var v := Classify(todas, now);
      if todas == [] {
        statusAssinatura := SemAssinatura;
        assinaturaInfo := None;
        isLoading := false;
        return;
      }
      var recente := todas[0];
      assinaturaInfo := Some(recente);
      var ativa := FindIndex(todas, IsAtiva(now));
      if ativa.Some? {
        statusAssinatura := Ativa;
        assinaturaInfo := Some(todas[ativa.value]);
        isLoading := false;
        return;
      }
      var cancelada := FindIndex(todas, IsCanceladaValida(now));
      if cancelada.Some? {
        statusAssinatura := CanceladaPeriodoValido;
        assinaturaInfo := Some(todas[cancelada.value]);
        isLoading := false;
        return;
      }
      if recente.status == Active && !PeriodValid(recente, now) {
        if !writeFails {
          UpdateKeepsUniqueIds(db.assinaturas, HasId(recente.id), ExpireAt(now));
          db.assinaturas := UpdateWhere(db.assinaturas, HasId(recente.id), ExpireAt(now));
        }
        statusAssinatura := Expirada;
      } else if recente.status == Expired || recente.status == Canceled {
        statusAssinatura := Expirada;
      } else {
        statusAssinatura := SemAssinatura;
      }
      isLoading := false;
    }

    /** `cancelarAssinatura`. `confirmed` is the user's answer to the confirmation dialog;
        `updateFails` the outcome of the `canceled_at` write; the last two are the
        outcomes of the re-check that follows a successful write. */
    method CancelarAssinatura(db: Db, now: int, confirmed: bool, updateFails: bool,
                              queryFails: bool, writeFails: bool)
      requires db.Valid()
      modifies this`statusAssinatura, this`assinaturaInfo, this`error, this`isLoading, db`assinaturas
      ensures db.Valid()
      ensures !Truthy(old(medicoId)) || old(assinaturaInfo).None? || old(assinaturaInfo).value.id == ""
              || !confirmed ==>
        db.assinaturas == old(db.assinaturas) && statusAssinatura == old(statusAssinatura)
        && assinaturaInfo == old(assinaturaInfo) && error == old(error) && isLoading == old(isLoading)
      ensures Truthy(old(medicoId)) && old(assinaturaInfo).Some? && old(assinaturaInfo).value.id != ""
              && confirmed && updateFails ==>
        db.assinaturas == old(db.assinaturas) && statusAssinatura == old(statusAssinatura)
        && assinaturaInfo == old(assinaturaInfo) && error && !isLoading
      ensures Truthy(old(medicoId)) && old(assinaturaInfo).Some? && old(assinaturaInfo).value.id != ""
              && confirmed && !updateFails ==>
        var stamped := UpdateWhere(old(db.assinaturas), HasId(old(assinaturaInfo).value.id), CancelAt(now));
        var v := Classify(Filter(stamped, OwnedBy(old(medicoId).value)), now);
        !isLoading
        && (queryFails ==> statusAssinatura == SemAssinatura && error && db.assinaturas == stamped)
        && (!queryFails ==>
              statusAssinatura == v.status && assinaturaInfo == v.info && !error
              && db.assinaturas == if v.expire.Some? && !writeFails
                                   then UpdateWhere(stamped, HasId(v.expire.value), ExpireAt(now))
                                   else stamped)
    {
      if !Truthy(medicoId) || assinaturaInfo.None? || assinaturaInfo.value.id == "" {
        return;
      }
      if !confirmed {
        return;
      }
      isLoading := true;
      error := false;
      if updateFails {
        error := true;
        isLoading := false;
        return;
      }
      UpdateKeepsUniqueIds(db.assinaturas, HasId(assinaturaInfo.value.id), CancelAt(now));
      db.assinaturas := UpdateWhere(db.assinaturas, HasId(assinaturaInfo.value.id), CancelAt(now));
      VerificarAssinatura(db, medicoId.value, now, queryFails, writeFails);
      isLoading := false;
    }
  }
}
