/** The guard wrapped around the doctor area (`AssinaturaGlobalCheck`):
    decides whether the signed-in doctor may see the page, expiring the
    doctor's "active" rows on the way when none of them is still paid for. */
module GlobalCheck {
  import opened Text
  import opened Query
  import opened Subscriptions
  import opened Store
  import AssinaturaPage

  /** How a database call ended: normally, with an error value returned, or with an
      exception thrown. */
  datatype Fault = NoFault | ReturnsError | Throws

  /** The one path on which a doctor is never blocked. */
  const SubscriptionPath: string := "/medico/area/assinatura"

  function ValidAt(now: int): Subscription -> bool
  {
    (r: Subscription) => PeriodValid(r, now)
  }

  function InvalidAt(now: int): Subscription -> bool
  {
    (r: Subscription) => !PeriodValid(r, now)
  }

  /** The session marks a signed-in doctor. */
  predicate SignedInDoctor(session: map<string, string>)
  {
    Get(session, "medicoAutenticado") == Some("true") && Truthy(Get(session, "medicoId"))
  }

  /** The manual override: the doctor's `medicos_auth` row, looked up by the
      session's `medicoAuthId`, has `acesso_liberado`. */
  predicate OverrideGranted(session: map<string, string>, auth: seq<MedicoAuth>)
  {
    Truthy(Get(session, "medicoAuthId")) && Liberado(auth, Get(session, "medicoAuthId").value)
  }

  /** The `medicos_auth` row with key `id` exists and has `acesso_liberado`. */
  predicate Liberado(auth: seq<MedicoAuth>, id: string)
  {
    var row := Single(auth, AuthHasId(id));
    row.Some? && row.value.acessoLiberado
  }

  /** The outcome of the `k`-th expiry write; writes past the end of `ws` land. */
  function WriteOutcome(ws: seq<Fault>, k: nat): Fault
  {
    if k < |ws| then ws[k] else NoFault
  }

  /** How many of the first `n` expiry writes run before one throws: the index of the
      first throwing write, or `n` when none of them throws. */
  function FirstThrow(ws: seq<Fault>, n: nat): (k: nat)
    ensures k <= n
    ensures forall j :: 0 <= j < k ==> WriteOutcome(ws, j) != Throws
    ensures k < n ==> WriteOutcome(ws, k) == Throws
  {
    if n == 0 then 0
    else
      var k := FirstThrow(ws, n - 1);
      if k < n - 1 then k else if WriteOutcome(ws, n - 1) == Throws then n - 1 else n
  }

  /** The keys whose expiry write landed among the first `n` writes: a write that returns
      an error is not read, and its row stays as it was. */
  function Landed(expiradas: seq<Subscription>, ws: seq<Fault>, n: nat): (ids: seq<string>)
    requires n <= |expiradas|
    ensures |ids| <= n
    ensures forall x :: x in ids <==> exists j :: 0 <= j < n && WriteOutcome(ws, j) == NoFault && expiradas[j].id == x
  {
    if n == 0 then []
    else Landed(expiradas, ws, n - 1) + (if WriteOutcome(ws, n - 1) == NoFault then [expiradas[n - 1].id] else [])
  }

  /** The rows the expiry loop visits: the doctor's "active" rows whose period is over. */
  function Expiradas(rows: seq<Subscription>, medId: string, now: int): seq<Subscription>
  {
    Filter(Filter(rows, OwnedActive(medId)), InvalidAt(now))
  }

  /** One of the expiry writes throws. */
  predicate WriteThrows(rows: seq<Subscription>, medId: string, now: int, ws: seq<Fault>)
  {
    FirstThrow(ws, |Expiradas(rows, medId, now)|) < |Expiradas(rows, medId, now)|
  }

  /** The keys the expiry loop writes before it ends or a write throws. */
  function Escritas(rows: seq<Subscription>, medId: string, now: int, ws: seq<Fault>): seq<string>
  {
    var e := Expiradas(rows, medId, now);
    Landed(e, ws, FirstThrow(ws, |e|))
  }

  /** What one run of `verificarAcesso` settles: whether the user is a doctor,
      whether access is granted, whether the expiry loop over the doctor's "active"
      rows runs, and the keys of the rows it rewrites to "expired". */
  datatype Decision = Decision(ehMedico: bool, temAcesso: bool, expireActive: bool, expired: seq<string>)

  /** `ws` holds the outcomes of the expiry writes, in the order the loop issues them. */
  function Decide(session: map<string, string>, pathname: string, rows: seq<Subscription>,
                  auth: seq<MedicoAuth>, now: int, subsFault: Fault, ws: seq<Fault>, authFault: Fault): (d: Decision)
    ensures d.expireActive ==> SignedInDoctor(session)
    ensures !d.expireActive ==> d.expired == []
  {
    if !SignedInDoctor(session) then Decision(false, true, false, [])
    else if pathname == SubscriptionPath then Decision(true, true, false, [])
    else if subsFault == Throws then Decision(true, true, false, [])
    else
      var medId := Get(session, "medicoId").value;
      var ativas := Filter(rows, OwnedActive(medId));
      if subsFault == NoFault && Any(ativas, ValidAt(now)) then Decision(true, true, false, [])
      else if subsFault == NoFault && ativas != [] then
        Decision(true, WriteThrows(rows, medId, now, ws) || OverrideStep(session, auth, authFault),
                 true, Escritas(rows, medId, now, ws))
      else Decision(true, OverrideStep(session, auth, authFault), false, [])
  }

  /** The last step: no `medicoAuthId` denies, an exception grants, otherwise the override decides. */
  function OverrideStep(session: map<string, string>, auth: seq<MedicoAuth>, authFault: Fault): bool
  {
    if !Truthy(Get(session, "medicoAuthId")) then false
    else if authFault == Throws then true
    else authFault == NoFault && OverrideGranted(session, auth)
  }

  /** Anyone not signed in as a doctor is let through, and the tables and the faults
      play no part: nothing is read or written. */
  lemma NonDoctorPassesWithoutReads(session: map<string, string>, pathname: string,
                                    rows: seq<Subscription>, auth: seq<MedicoAuth>, now: int,
                                    subsFault: Fault, ws: seq<Fault>, authFault: Fault,
                                    rows': seq<Subscription>, auth': seq<MedicoAuth>, now': int,
                                    subsFault': Fault, ws': seq<Fault>, authFault': Fault)
    requires !SignedInDoctor(session)
    ensures Decide(session, pathname, rows, auth, now, subsFault, ws, authFault) == Decision(false, true, false, [])
    ensures Decide(session, pathname, rows, auth, now, subsFault, ws, authFault)
         == Decide(session, pathname, rows', auth', now', subsFault', ws', authFault')
  {
  }

  /** On the subscription page a doctor is always let through, whatever the rows. */
  lemma SubscriptionPageCarveOut(session: map<string, string>, rows: seq<Subscription>,
                                 auth: seq<MedicoAuth>, now: int, subsFault: Fault, ws: seq<Fault>,
                                 authFault: Fault)
    requires SignedInDoctor(session)
    ensures Decide(session, SubscriptionPath, rows, auth, now, subsFault, ws, authFault)
         == Decision(true, true, false, [])
  {
  }

  /** A row with status exactly "active" and a valid period grants access, cancelled or not. */
  lemma {:induction false} ValidActiveRowGrants(session: map<string, string>, pathname: string,
                                                rows: seq<Subscription>, auth: seq<MedicoAuth>,
                                                now: int, ws: seq<Fault>, authFault: Fault, i: int)
    requires SignedInDoctor(session) && 0 <= i < |rows|
    requires rows[i].owner == Get(session, "medicoId").value && rows[i].status == Active
    requires PeriodValid(rows[i], now)
    ensures Decide(session, pathname, rows, auth, now, NoFault, ws, authFault) == Decision(true, true, false, [])
  {
    var ativas := Filter(rows, OwnedActive(Get(session, "medicoId").value));
    assert rows[i] in ativas;
    var k :| 0 <= k < |ativas| && ativas[k] == rows[i];
    assert ValidAt(now)(ativas[k]);
  }

  /** Without a valid "active" row, only a throwing expiry write or the override can grant
      (when the override lookup does not throw): rows with any other status,
      "active_until_period_end" included, never do. */
  lemma {:induction false} OnlyOverrideWithoutValidActive(session: map<string, string>, pathname: string,
                                                          rows: seq<Subscription>, auth: seq<MedicoAuth>,
                                                          now: int, ws: seq<Fault>, authFault: Fault)
    requires SignedInDoctor(session) && pathname != SubscriptionPath && authFault != Throws
    requires forall r :: r in rows && r.owner == Get(session, "medicoId").value && r.status == Active
                         ==> !PeriodValid(r, now)
    ensures Decide(session, pathname, rows, auth, now, NoFault, ws, authFault).temAcesso
            <==> WriteThrows(rows, Get(session, "medicoId").value, now, ws)
                 || (authFault == NoFault && OverrideGranted(session, auth))
  {
    var medId := Get(session, "medicoId").value;
    var ativas := Filter(rows, OwnedActive(medId));
    forall k | 0 <= k < |ativas|
      ensures !ValidAt(now)(ativas[k])
    {
      assert ativas[k] in ativas;
    }
    if ativas == [] {
      assert Expiradas(rows, medId, now) == [];
    }
  }

  /** The expiry loop runs exactly when the read succeeded, found "active" rows, and none
      of them is valid. */
  lemma {:induction false} ExpiryCondition(session: map<string, string>, pathname: string,
                                           rows: seq<Subscription>, auth: seq<MedicoAuth>, now: int,
                                           subsFault: Fault, ws: seq<Fault>, authFault: Fault)
    requires SignedInDoctor(session) && pathname != SubscriptionPath
    ensures var ativas := Filter(rows, OwnedActive(Get(session, "medicoId").value));
      Decide(session, pathname, rows, auth, now, subsFault, ws, authFault).expireActive
      <==> subsFault == NoFault && Any(rows, OwnedActive(Get(session, "medicoId").value))
           && !Any(ativas, ValidAt(now))
  {
    FilterNonEmpty(rows, OwnedActive(Get(session, "medicoId").value));
  }

  /** A returned read error skips the rows and goes straight to the override; a thrown
      exception lets the doctor in. Neither writes anything. */
  lemma QueryFaults(session: map<string, string>, pathname: string, rows: seq<Subscription>,
                    auth: seq<MedicoAuth>, now: int, ws: seq<Fault>, authFault: Fault)
    requires SignedInDoctor(session) && pathname != SubscriptionPath
    ensures Decide(session, pathname, rows, auth, now, ReturnsError, ws, authFault).temAcesso
            <==> (authFault == Throws && Truthy(Get(session, "medicoAuthId")))
                 || (authFault == NoFault && OverrideGranted(session, auth))
    ensures !Decide(session, pathname, rows, auth, now, ReturnsError, ws, authFault).expireActive
    ensures Decide(session, pathname, rows, auth, now, Throws, ws, authFault) == Decision(true, true, false, [])
  {
  }

  /** The faults of the expiry writes, once the loop runs. A throwing write lets the doctor
      in, with only the writes before it applied; a write that returns an error is not
      read, so its row stays "active" and the flow goes on to the override. Without a
      throwing write the override decides. */
  lemma {:induction false} ExpiryWriteFaults(session: map<string, string>, pathname: string,
                                             rows: seq<Subscription>, auth: seq<MedicoAuth>, now: int,
                                             ws: seq<Fault>, authFault: Fault)
    requires SignedInDoctor(session) && pathname != SubscriptionPath
    requires Any(rows, OwnedActive(Get(session, "medicoId").value))
    requires !Any(Filter(rows, OwnedActive(Get(session, "medicoId").value)), ValidAt(now))
    ensures var medId := Get(session, "medicoId").value;
      var e := Expiradas(rows, medId, now);
      var d := Decide(session, pathname, rows, auth, now, NoFault, ws, authFault);
      && d.expireActive
      && (WriteThrows(rows, medId, now, ws) ==> d.temAcesso)
      && (!WriteThrows(rows, medId, now, ws) ==> (d.temAcesso <==> OverrideStep(session, auth, authFault)))
      && (forall x :: x in d.expired <==>
            exists j :: 0 <= j < FirstThrow(ws, |e|) && WriteOutcome(ws, j) == NoFault && e[j].id == x)
  {
    FilterNonEmpty(rows, OwnedActive(Get(session, "medicoId").value));
  }

  /** The case of one lapsed "active" row. A network exception on its write lets the
      doctor in and leaves the row as it was; an error returned by the write leaves the
      row as it was too, and the override decides. */
  lemma {:induction false} LapsedRowWriteFault(session: map<string, string>, pathname: string,
                                               r: Subscription, auth: seq<MedicoAuth>, now: int,
                                               authFault: Fault)
    requires SignedInDoctor(session) && pathname != SubscriptionPath
    requires r.owner == Get(session, "medicoId").value && r.status == Active && !PeriodValid(r, now)
    ensures Decide(session, pathname, [r], auth, now, NoFault, [Throws], authFault) == Decision(true, true, true, [])
    ensures Decide(session, pathname, [r], auth, now, NoFault, [ReturnsError], authFault)
         == Decision(true, OverrideStep(session, auth, authFault), true, [])
    ensures Decide(session, pathname, [r], auth, now, NoFault, [NoFault], authFault)
         == Decision(true, OverrideStep(session, auth, authFault), true, [r.id])
  {
    var medId := Get(session, "medicoId").value;
    assert OwnedActive(medId)(r);
    assert Filter([r], OwnedActive(medId)) == [r];
    assert !ValidAt(now)([r][0]);
    assert InvalidAt(now)(r);
    assert Expiradas([r], medId, now) == [r];
  }

  /** A missing `medicoAuthId` skips the override: the doctor is let in only by a
      throwing expiry write. */
  lemma MissingAuthIdDenies(session: map<string, string>, pathname: string, rows: seq<Subscription>,
                            auth: seq<MedicoAuth>, now: int, subsFault: Fault, ws: seq<Fault>,
                            authFault: Fault)
    requires SignedInDoctor(session) && pathname != SubscriptionPath && subsFault != Throws
    requires !Truthy(Get(session, "medicoAuthId"))
    requires !Any(Filter(rows, OwnedActive(Get(session, "medicoId").value)), ValidAt(now))
    ensures Decide(session, pathname, rows, auth, now, subsFault, ws, authFault).temAcesso
            <==> subsFault == NoFault && WriteThrows(rows, Get(session, "medicoId").value, now, ws)
  {
    var medId := Get(session, "medicoId").value;
    if Filter(rows, OwnedActive(medId)) == [] {
      assert Expiradas(rows, medId, now) == [];
    }
  }

  /** Where the guard and the subscription page disagree. A cancelled "active" row
      inside its period: the page says `cancelada_periodo_valido`, the guard lets the
      doctor in. An "active_until_period_end" row inside its period, and no override:
      the page says `sem_assinatura`, the guard blocks. */
  lemma {:induction false} GuardAndPageDisagree(session: map<string, string>, pathname: string,
                                                r: Subscription, auth: seq<MedicoAuth>, now: int)
    requires SignedInDoctor(session) && pathname != SubscriptionPath
    requires r.owner == Get(session, "medicoId").value && PeriodValid(r, now)
    requires !OverrideGranted(session, auth)
    ensures r.status == Active && r.canceledAt.Some? ==>
      AssinaturaPage.Classify([r], now).status == AssinaturaPage.CanceladaPeriodoValido
      && Decide(session, pathname, [r], auth, now, NoFault, [], NoFault).temAcesso
    ensures r.status == ActiveUntilPeriodEnd ==>
      AssinaturaPage.Classify([r], now).status == AssinaturaPage.SemAssinatura
      && !Decide(session, pathname, [r], auth, now, NoFault, [], NoFault).temAcesso
  {
    AssinaturaPage.ClassifyCancelada([r], now);
    if r.status == Active {
      ValidActiveRowGrants(session, pathname, [r], auth, now, [], NoFault, 0);
      if r.canceledAt.Some? {
        assert AssinaturaPage.IsCanceladaValida(now)([r][0]);
        assert !AssinaturaPage.IsAtiva(now)([r][0]);
      }
    } else if r.status == ActiveUntilPeriodEnd {
      AssinaturaPage.ActiveUntilPeriodEndShowsNoSubscription(r, now);
      OnlyOverrideWithoutValidActive(session, pathname, [r], auth, now, [], NoFault);
    }
  }

  /** With unique keys, expiring the filtered rows by key is expiring every "active" row
      of the doctor. */
  lemma {:induction false} ExpireByKeysIsExpireActive(rows: seq<Subscription>, medId: string, now: int)
    requires UniqueIds(rows)
    requires !Any(Filter(rows, OwnedActive(medId)), ValidAt(now))
    ensures UpdateWhere(rows, IdIn(Ids(Expiradas(rows, medId, now))), ExpireAt(now))
         == UpdateWhere(rows, OwnedActive(medId), ExpireAt(now))
  {
    var ativas := Filter(rows, OwnedActive(medId));
    var expiradas := Filter(ativas, InvalidAt(now));
    var ids := Ids(expiradas);
    var a := UpdateWhere(rows, IdIn(ids), ExpireAt(now));
    var b := UpdateWhere(rows, OwnedActive(medId), ExpireAt(now));
    forall i | 0 <= i < |rows|
      ensures IdIn(ids)(rows[i]) == OwnedActive(medId)(rows[i])
    {
      if OwnedActive(medId)(rows[i]) {
        assert rows[i] in ativas;
        var k :| 0 <= k < |ativas| && ativas[k] == rows[i];
        assert !ValidAt(now)(ativas[k]);
        assert rows[i] in expiradas;
        var m :| 0 <= m < |expiradas| && expiradas[m] == rows[i];
        assert ids[m] == rows[i].id;
      }
      if IdIn(ids)(rows[i]) {
        var m :| 0 <= m < |ids| && ids[m] == rows[i].id;
        assert expiradas[m] in expiradas;
        var j :| 0 <= j < |rows| && rows[j] == expiradas[m];
        assert rows[j].id == rows[i].id;
        assert j == i;
      }
    }
    assert forall i :: 0 <= i < |rows| ==> a[i] == b[i];
  }

  /** When none of the first `n` writes fails, their keys are the first `n` keys. */
  lemma {:induction false} LandedWithoutFaults(expiradas: seq<Subscription>, ws: seq<Fault>, n: nat)
    requires n <= |expiradas|
    requires forall j :: 0 <= j < n ==> WriteOutcome(ws, j) == NoFault
    ensures Landed(expiradas, ws, n) == Ids(expiradas[..n])
  {
    if n > 0 {
      LandedWithoutFaults(expiradas, ws, n - 1);
      IdsPrefix(expiradas, n - 1);
    }
  }

  /** When every expiry write lands, the loop expires every "active" row of the doctor. */
  lemma {:induction false} AllWritesLand(rows: seq<Subscription>, medId: string, now: int, ws: seq<Fault>)
    requires UniqueIds(rows)
    requires !Any(Filter(rows, OwnedActive(medId)), ValidAt(now))
    requires forall j :: 0 <= j < |Expiradas(rows, medId, now)| ==> WriteOutcome(ws, j) == NoFault
    ensures !WriteThrows(rows, medId, now, ws)
    ensures UpdateWhere(rows, IdIn(Escritas(rows, medId, now, ws)), ExpireAt(now))
         == UpdateWhere(rows, OwnedActive(medId), ExpireAt(now))
  {
    var e := Expiradas(rows, medId, now);
    FirstThrowIs(ws, |e|, |e|);
    LandedWithoutFaults(e, ws, |e|);
    assert e[..|e|] == e;
    ExpireByKeysIsExpireActive(rows, medId, now);
  }

  /** The first throwing write is pinned down by the writes before it and its own outcome. */
  lemma FirstThrowIs(ws: seq<Fault>, n: nat, k: nat)
    requires k <= n
    requires forall j :: 0 <= j < k ==> WriteOutcome(ws, j) != Throws
    requires k < n ==> WriteOutcome(ws, k) == Throws
    ensures FirstThrow(ws, n) == k
  {
  }

  /** One turn of the expiry loop: a write that lands adds its key to the rows written
      so far; one that returns an error adds nothing. */
  lemma ExpiryWriteStep(t0: seq<Subscription>, expiradas: seq<Subscription>, ws: seq<Fault>, k: nat, now: int)
    requires k < |expiradas| && WriteOutcome(ws, k) != Throws
    ensures WriteOutcome(ws, k) == NoFault ==>
      UpdateWhere(UpdateWhere(t0, IdIn(Landed(expiradas, ws, k)), ExpireAt(now)), HasId(expiradas[k].id), ExpireAt(now))
      == UpdateWhere(t0, IdIn(Landed(expiradas, ws, k + 1)), ExpireAt(now))
    ensures WriteOutcome(ws, k) == ReturnsError ==> Landed(expiradas, ws, k + 1) == Landed(expiradas, ws, k)
  {
    ExpireOneMore(t0, Landed(expiradas, ws, k), expiradas[k].id, now);
  }

  /** The update of one expired row, by its id. */
  method ExpirarUma(db: Db, id: string, now: int)
    requires db.Valid()
    modifies db`assinaturas
    ensures db.Valid()
    ensures db.assinaturas == UpdateWhere(old(db.assinaturas), HasId(id), ExpireAt(now))
  {
    UpdateKeepsUniqueIds(db.assinaturas, HasId(id), ExpireAt(now));
    db.assinaturas := UpdateWhere(db.assinaturas, HasId(id), ExpireAt(now));
  }

  /** The read of the doctor's "active" rows: `valida` when one is still valid; otherwise,
      when the read succeeded and found some, the expiry loop runs, and `lancou` says
      whether one of its writes threw. */
  method VerificarAtivas(db: Db, medId: string, now: int, subsFault: Fault, ws: seq<Fault>)
    returns (valida: bool, lancou: bool)
    requires db.Valid()
    modifies db`assinaturas
    ensures db.Valid()
    ensures var ativas := Filter(old(db.assinaturas), OwnedActive(medId));
      var corre := subsFault == NoFault && ativas != [] && !valida;
      && (valida <==> subsFault == NoFault && Any(ativas, ValidAt(now)))
      && (lancou <==> corre && WriteThrows(old(db.assinaturas), medId, now, ws))
      && db.assinaturas == if corre
                           then UpdateWhere(old(db.assinaturas), IdIn(Escritas(old(db.assinaturas), medId, now, ws)), ExpireAt(now))
                           else old(db.assinaturas)
  {
    var ativas := Filter(db.assinaturas, OwnedActive(medId));
    if subsFault == NoFault && ativas != [] {
      var encontrada := FindIndex(ativas, ValidAt(now));
      if encontrada.Some? {
        return true, false;
      }
      FindIndexNone(ativas, ValidAt(now));
      lancou := ExpirarAtivas(db, medId, now, ws);
      return false, lancou;
    }
    return false, false;
  }

  /** The loop over the doctor's lapsed "active" rows, one expiry write per row, `ws[k]`
      the outcome of the `k`-th: an error returned by a write is not read, and a thrown
      one ends the loop (`lancou`). */
  method ExpirarAtivas(db: Db, medId: string, now: int, ws: seq<Fault>) returns (lancou: bool)
    requires db.Valid()
    modifies db`assinaturas
    ensures db.Valid()
    ensures lancou == WriteThrows(old(db.assinaturas), medId, now, ws)
    ensures db.assinaturas == UpdateWhere(old(db.assinaturas), IdIn(Escritas(old(db.assinaturas), medId, now, ws)), ExpireAt(now))
  {
    var t0 := db.assinaturas;
    var expiradas := Expiradas(db.assinaturas, medId, now);
    var k := 0;
    while k < |expiradas|
      invariant 0 <= k <= |expiradas|
      invariant db.Valid()
      invariant forall j :: 0 <= j < k ==> WriteOutcome(ws, j) != Throws
      invariant db.assinaturas == UpdateWhere(t0, IdIn(Landed(expiradas, ws, k)), ExpireAt(now))
    {
      var resultado := WriteOutcome(ws, k);
      if resultado == Throws {
        FirstThrowIs(ws, |expiradas|, k);
        return true;
      }
      ExpiryWriteStep(t0, expiradas, ws, k, now);
      if resultado == NoFault {
        ExpirarUma(db, expiradas[k].id, now);
      }
      k := k + 1;
    }
    FirstThrowIs(ws, |expiradas|, k);
    return false;
  }

  /** What the guard renders. */
  datatype View = Loading | Children | Blocked

  function Render(carregando: bool, ehMedico: bool, temAcesso: Option<bool>): (v: View)
    ensures v == Blocked <==> !carregando && ehMedico && temAcesso != Some(true)
    ensures v == Loading <==> carregando
  {
    if carregando then Loading
    else if !ehMedico || temAcesso == Some(true) then Children
    else Blocked
  }

  /** The body of `verificarAcesso`, early returns and all; an exception thrown by an
      expiry write lands in the `catch`, which lets the doctor in. */
  method Decidir(db: Db, session: map<string, string>, pathname: string, now: int,
                 subsFault: Fault, ws: seq<Fault>, authFault: Fault) returns (ehMedico: bool, temAcesso: bool)
    requires db.Valid()
    modifies db`assinaturas
    ensures db.Valid()
    ensures var d := Decide(session, pathname, old(db.assinaturas), db.medicosAuth, now, subsFault, ws, authFault);
      ehMedico == d.ehMedico && temAcesso == d.temAcesso
      && db.assinaturas == if d.expireActive
                           then UpdateWhere(old(db.assinaturas), IdIn(d.expired), ExpireAt(now))
                           else old(db.assinaturas)
  {
    var medicoAutenticado := Get(session, "medicoAutenticado");
    var medId := Get(session, "medicoId");
    var medAuthId := Get(session, "medicoAuthId");
    if medicoAutenticado != Some("true") || !Truthy(medId) {
      return false, true;
    }
    if pathname == SubscriptionPath || subsFault == Throws {
      return true, true;
    }
    var valida, lancou := VerificarAtivas(db, medId.value, now, subsFault, ws);
    if valida || lancou {
      return true, true;
    }
    var liberado := ConsultarLiberacao(db, medAuthId, authFault);
    return true, liberado;
  }

  /** The override lookup at the end of `verificarAcesso`. */
  method ConsultarLiberacao(db: Db, medAuthId: Option<string>, authFault: Fault) returns (liberado: bool)
    ensures liberado <==> (Truthy(medAuthId)
                           && (authFault == Throws
                               || (authFault == NoFault && Liberado(db.medicosAuth, medAuthId.value))))
  {
    if Truthy(medAuthId) {
      if authFault == Throws {
        return true;
      }
      var medicoAuth := Single(db.medicosAuth, AuthHasId(medAuthId.value));
      if authFault == NoFault && medicoAuth.Some? && medicoAuth.value.acessoLiberado {
        return true;
      }
    }
    return false;
  }

  class Guard {
    var temAcesso: Option<bool>
    var carregando: bool
    var ehMedico: bool

    constructor ()
      ensures temAcesso.None? && carregando && !ehMedico
    {
      temAcesso, carregando, ehMedico := None, true, false;
    }

    /** `verificarAcesso`: the loading flag is up while `Decidir` runs. `subsFault`, `ws`
        and `authFault` are the outcomes of the read of the doctor's "active" rows, of
        each expiry write, and of the override lookup. */
    method VerificarAcesso(db: Db, session: map<string, string>, pathname: string, now: int,
                           subsFault: Fault, ws: seq<Fault>, authFault: Fault)
      requires db.Valid()
      modifies this, db`assinaturas
      ensures db.Valid() && !carregando
      ensures var d := Decide(session, pathname, old(db.assinaturas), db.medicosAuth, now, subsFault, ws, authFault);
        ehMedico == d.ehMedico && temAcesso == Some(d.temAcesso)
        && db.assinaturas == if d.expireActive
                             then UpdateWhere(old(db.assinaturas), IdIn(d.expired), ExpireAt(now))
                             else old(db.assinaturas)
    {
      carregando := true;
      var medico, acesso := Decidir(db, session, pathname, now, subsFault, ws, authFault);
      ehMedico := medico;
      temAcesso := Some(acesso);
      carregando := false;
    }
  }
}
