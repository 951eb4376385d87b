/** Self-service cancellation (`POST /api/cancel-subscription`): an early-return
    ladder that ends by stamping `canceled_at` on the doctor's subscription row. */
module CancelSubscription {
  import opened Text
  import opened Query
  import opened Subscriptions
  import opened Store

  /** The request body: unparsable JSON, or an object with an optional `subscriptionId`. */
  datatype Body = Unparsable | Parsed(subscriptionId: Option<string>)

  /** What cancelling at the provider does: succeeds, or fails with a code, a message and an error type. */
  datatype ProviderResult = Cancelled | ProviderError(code: string, message: string, errorType: string)

  datatype Reply =
    | Success(alreadyCanceled: bool)
    | Failure(status: int)

  /** The answer, the table afterwards, and whether the provider was asked to cancel. */
  datatype Outcome = Outcome(reply: Reply, rows: seq<Subscription>, providerCalled: bool)

  /** The provider errors the route treats as "already gone at the provider". */
  predicate MissingAtProvider(r: ProviderResult)
  {
    r.ProviderError? && (r.code == "resource_missing" || Contains(r.message, "No such subscription"))
  }

  function Cancel(secretKey: Option<string>, body: Body, provider: ProviderResult, writeFails: bool,
                  now: int, rows: seq<Subscription>): Outcome
  {
    if !Truthy(secretKey) then Outcome(Failure(500), rows, false)
    else if body.Unparsable? then Outcome(Failure(400), rows, false)
    else if !Truthy(body.subscriptionId) then Outcome(Failure(400), rows, false)
    else
      var sid := body.subscriptionId.value;
      var existente := Single(rows, HasSubscriptionId(sid));
      if existente.None? then Outcome(Failure(404), rows, false)
      else if existente.value.canceledAt.Some? then Outcome(Success(true), rows, false)
      else if provider.ProviderError? && !MissingAtProvider(provider) then
        Outcome(Failure(if provider.errorType == "StripeInvalidRequestError" then 400 else 500), rows, true)
      else
        Outcome(Success(false), if writeFails then rows else UpdateWhere(rows, HasSubscriptionId(sid), CancelAt(now)), true)
  }

  /** A missing key, an unparsable body or a missing id are refused before any read, call or write. */
  lemma EarlyRefusals(secretKey: Option<string>, body: Body, provider: ProviderResult, writeFails: bool,
                      now: int, rows: seq<Subscription>)
    ensures !Truthy(secretKey) ==> Cancel(secretKey, body, provider, writeFails, now, rows) == Outcome(Failure(500), rows, false)
    ensures Truthy(secretKey) && body.Unparsable? ==>
      Cancel(secretKey, body, provider, writeFails, now, rows) == Outcome(Failure(400), rows, false)
    ensures Truthy(secretKey) && body.Parsed? && !Truthy(body.subscriptionId) ==>
      Cancel(secretKey, body, provider, writeFails, now, rows) == Outcome(Failure(400), rows, false)
  {
  }

  /** Unless exactly one row carries the id, the answer is 404, with no call and no write. */
  lemma UnknownSubscription(secretKey: Option<string>, sid: string, provider: ProviderResult, writeFails: bool,
                            now: int, rows: seq<Subscription>)
    requires Truthy(secretKey) && sid != ""
    requires |Filter(rows, HasSubscriptionId(sid))| != 1
    ensures Cancel(secretKey, Parsed(Some(sid)), provider, writeFails, now, rows) == Outcome(Failure(404), rows, false)
  {
  }

  /** The cancellation of the only row with that id: `canceled_at` and `updated_at` stamped on
      that row alone, status kept, whether the provider cancelled or no longer knows the id. */
  lemma {:induction false} CancelStampsOnlyThatRow(secretKey: Option<string>, provider: ProviderResult,
                                                   now: int, rows: seq<Subscription>, i: int)
    requires Truthy(secretKey) && 0 <= i < |rows| && rows[i].subscriptionId != ""
    requires forall j :: 0 <= j < |rows| && j != i ==> rows[j].subscriptionId != rows[i].subscriptionId
    requires rows[i].canceledAt.None?
    requires provider.Cancelled? || MissingAtProvider(provider)
    ensures var o := Cancel(secretKey, Parsed(Some(rows[i].subscriptionId)), provider, false, now, rows);
      o.reply == Success(false) && o.providerCalled
      && o.rows == rows[i := StampCanceled(rows[i], now)]
      && o.rows[i].status == rows[i].status
  {
    var q := HasSubscriptionId(rows[i].subscriptionId);
    SingleOfOnlyMatch(rows, q, i);
    var u := UpdateWhere(rows, q, CancelAt(now));
    assert forall k :: 0 <= k < |rows| ==> u[k] == rows[i := StampCanceled(rows[i], now)][k];
  }

  /** Any other provider error stops before the write: 400 for an invalid request, else 500. */
  lemma ProviderFailureWritesNothing(secretKey: Option<string>, provider: ProviderResult, writeFails: bool,
                                     now: int, rows: seq<Subscription>, i: int)
    requires Truthy(secretKey) && 0 <= i < |rows| && rows[i].subscriptionId != ""
    requires Single(rows, HasSubscriptionId(rows[i].subscriptionId)) == Some(rows[i])
    requires rows[i].canceledAt.None?
    requires provider.ProviderError? && !MissingAtProvider(provider)
    ensures var o := Cancel(secretKey, Parsed(Some(rows[i].subscriptionId)), provider, writeFails, now, rows);
      o.rows == rows && o.providerCalled
      && o.reply == Failure(if provider.errorType == "StripeInvalidRequestError" then 400 else 500)
  {
  }

  /** Repeating a cancellation answers `alreadyCanceled`, with no call and no write, so
      `canceled_at` keeps the time of the first one. */
  lemma {:induction false} CancelIdempotent(secretKey: Option<string>, p1: ProviderResult, p2: ProviderResult,
                                            t1: int, t2: int, rows: seq<Subscription>, i: int)
    requires Truthy(secretKey) && 0 <= i < |rows| && rows[i].subscriptionId != ""
    requires forall j :: 0 <= j < |rows| && j != i ==> rows[j].subscriptionId != rows[i].subscriptionId
    requires rows[i].canceledAt.None?
    requires p1.Cancelled? || MissingAtProvider(p1)
    ensures var body := Parsed(Some(rows[i].subscriptionId));
      var first := Cancel(secretKey, body, p1, false, t1, rows);
      var second := Cancel(secretKey, body, p2, false, t2, first.rows);
      second == Outcome(Success(true), first.rows, false) && first.rows[i].canceledAt == Some(t1)
  {
    CancelStampsOnlyThatRow(secretKey, p1, t1, rows, i);
    var after := rows[i := StampCanceled(rows[i], t1)];
    SingleOfOnlyMatch(after, HasSubscriptionId(rows[i].subscriptionId), i);
  }

  /** The route, run against the database. */
  method Post(db: Db, secretKey: Option<string>, body: Body, provider: ProviderResult, writeFails: bool, now: int)
    returns (reply: Reply, providerCalled: bool)
    requires db.Valid()
    modifies db`assinaturas
    ensures db.Valid()
    ensures var o := Cancel(secretKey, body, provider, writeFails, now, old(db.assinaturas));
      reply == o.reply && providerCalled == o.providerCalled && db.assinaturas == o.rows
  {
    providerCalled := false;
    if !Truthy(secretKey) {
      return Failure(500), false;
    }
    if body.Unparsable? {
      return Failure(400), false;
    }
    if !Truthy(body.subscriptionId) {
      return Failure(400), false;
    }
    var sid := body.subscriptionId.value;
    var assinaturaExistente := Single(db.assinaturas, HasSubscriptionId(sid));
    if assinaturaExistente.None? {
      return Failure(404), false;
    }
    if assinaturaExistente.value.canceledAt.Some? {
      return Success(true), false;
    }
    providerCalled := true;
    if provider.ProviderError? && !MissingAtProvider(provider) {
      if provider.errorType == "StripeInvalidRequestError" {
        return Failure(400), true;
      }
      return Failure(500), true;
    }
    if !writeFails {
      UpdateKeepsUniqueIds(db.assinaturas, HasSubscriptionId(sid), CancelAt(now));
      db.assinaturas := UpdateWhere(db.assinaturas, HasSubscriptionId(sid), CancelAt(now));
    }
    return Success(false), true;
  }
}
