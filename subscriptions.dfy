/** Subscription records as stored in `assinaturas` (one owner per doctor)
    and `assinaturas_instancia` (one owner per tenant), and the row-level
    rewrites the application applies to them. Times are milliseconds. */
module Subscriptions {
  import opened Text
  import opened Query

  /** The `status` column. Provider statuses are copied verbatim, so any
      string can appear; the four the application compares against get
      their own constructor. */
  datatype Status = Active | Expired | Canceled | ActiveUntilPeriodEnd | Other(name: string)

  predicate Reserved(name: string)
  {
    name == "active" || name == "expired" || name == "canceled" || name == "active_until_period_end"
  }

  /** Every status has exactly one constructor form: `Other` never holds a reserved name. */
  predicate Canonical(s: Status)
  {
    s.Other? ==> !Reserved(s.name)
  }

  function StatusName(s: Status): string
  {
    match s
    case Active => "active"
    case Expired => "expired"
    case Canceled => "canceled"
    case ActiveUntilPeriodEnd => "active_until_period_end"
    case Other(n) => n
  }

  /** Reading the column back into a status. */
  function StatusOf(name: string): (s: Status)
    ensures StatusName(s) == name
    ensures Canonical(s)
    ensures s == Active <==> name == "active"
  {
    if name == "active" then Active
    else if name == "expired" then Expired
    else if name == "canceled" then Canceled
    else if name == "active_until_period_end" then ActiveUntilPeriodEnd
    else Other(name)
  }

  lemma StatusRoundTrip(s: Status)
    requires Canonical(s)
    ensures StatusOf(StatusName(s)) == s
  {
  }

  /** One row of either subscription table. `owner` is `medico_id` in
      `assinaturas` and `instancia_id` in `assinaturas_instancia`. */
  datatype Subscription = Subscription(
    id: string,
    owner: string,
    customerId: string,
    subscriptionId: string,
    status: Status,
    plan: string,
    periodStart: Option<int>,
    periodEnd: Option<int>,
    nextBilling: Option<int>,
    paymentMethod: string,
    last4: Option<string>,
    amount: Option<int>,
    currency: string,
    canceledAt: Option<int>,
    updatedAt: Option<int>)

  /** `periodoAssinaturaValido`: the paid period has an end and `now` has not passed it. */
  predicate PeriodValid(r: Subscription, now: int)
  {
    r.periodEnd.Some? && now <= r.periodEnd.value
  }

  lemma PeriodValidBoundary(r: Subscription, now: int)
    ensures r.periodEnd.None? ==> !PeriodValid(r, now)
    ensures r.periodEnd == Some(now) ==> PeriodValid(r, now)
    ensures r.periodEnd.Some? && now == r.periodEnd.value + 1 ==> !PeriodValid(r, now)
  {
  }

  /** Once invalid, a period stays invalid as time goes on. */
  lemma PeriodValidMonotone(r: Subscription, now: int, later: int)
    requires now <= later
    ensures PeriodValid(r, later) ==> PeriodValid(r, now)
  {
  }

  /** The subscription state a payment provider reports: status and the
      period bounds in whole seconds. */
  datatype ProviderState = ProviderState(
    subscriptionId: string,
    status: string,
    periodStartSecs: int,
    periodEndSecs: int)

  /** The lazy expiry write: status "expired" and a fresh `updated_at`. */
  function MarkExpired(r: Subscription, now: int): (e: Subscription)
    ensures e.status == Expired && e.updatedAt == Some(now)
    ensures e.(status := r.status, updatedAt := r.updatedAt) == r
  {
    r.(status := Expired, updatedAt := Some(now))
  }

  /** The self-service cancellation write: `canceled_at` and `updated_at`, status untouched. */
  function StampCanceled(r: Subscription, now: int): (c: Subscription)
    ensures c.canceledAt == Some(now) && c.updatedAt == Some(now)
    ensures c.status == r.status
    ensures c.(canceledAt := r.canceledAt, updatedAt := r.updatedAt) == r
  {
    r.(canceledAt := Some(now), updatedAt := Some(now))
  }

  /** The renewal write: provider status and period copied, seconds turned into milliseconds. */
  function Refresh(r: Subscription, p: ProviderState, now: int): (u: Subscription)
    ensures u.status == StatusOf(p.status)
    ensures u.periodStart == Some(p.periodStartSecs * 1000)
    ensures u.periodEnd == Some(p.periodEndSecs * 1000) && u.nextBilling == u.periodEnd
    ensures u.updatedAt == Some(now)
    ensures u.(status := r.status, periodStart := r.periodStart, periodEnd := r.periodEnd,
               nextBilling := r.nextBilling, updatedAt := r.updatedAt) == r
  {
    r.(status := StatusOf(p.status),
       periodStart := Some(p.periodStartSecs * 1000),
       periodEnd := Some(p.periodEndSecs * 1000),
       nextBilling := Some(p.periodEndSecs * 1000),
       updatedAt := Some(now))
  }

  /** Applying the same provider state twice leaves the same fields, whatever the clock says. */
  lemma RefreshIdempotent(r: Subscription, p: ProviderState, t1: int, t2: int)
    ensures Refresh(Refresh(r, p, t1), p, t2) == Refresh(r, p, t2)
  {
  }

  /** The provider-deletion write: a status, `canceled_at` and `updated_at`. */
  function Terminate(r: Subscription, s: Status, now: int): (d: Subscription)
    ensures d.status == s && d.canceledAt == Some(now) && d.updatedAt == Some(now)
    ensures d.(status := r.status, canceledAt := r.canceledAt, updatedAt := r.updatedAt) == r
  {
    r.(status := s, canceledAt := Some(now), updatedAt := Some(now))
  }

  function Ids(rows: seq<Subscription>): (ids: seq<string>)
    ensures |ids| == |rows|
    ensures forall i :: 0 <= i < |rows| ==> ids[i] == rows[i].id
  {
    if rows == [] then [] else [rows[0].id] + Ids(rows[1..])
  }

  lemma IdsPrefix(rows: seq<Subscription>, k: int)
    requires 0 <= k < |rows|
    ensures Ids(rows[..k + 1]) == Ids(rows[..k]) + [rows[k].id]
  {
    var a, b := Ids(rows[..k + 1]), Ids(rows[..k]) + [rows[k].id];
    assert |a| == |b|;
    forall i | 0 <= i < |a|
      ensures a[i] == b[i]
    {
      assert rows[..k + 1][i] == rows[i];
    }
  }

  /** The primary key `id` is unique within a table. */
  predicate UniqueIds(rows: seq<Subscription>)
  {
    forall i, j :: 0 <= i < j < |rows| ==> rows[i].id != rows[j].id
  }

  /** `.eq("subscription_id", sid)`. */
  function HasSubscriptionId(sid: string): Subscription -> bool
  {
    (r: Subscription) => r.subscriptionId == sid
  }

  /** `.eq("id", id)`. */
  function HasId(id: string): Subscription -> bool
  {
    (r: Subscription) => r.id == id
  }

  /** `.eq(owner column, owner)`. */
  function OwnedBy(owner: string): Subscription -> bool
  {
    (r: Subscription) => r.owner == owner
  }

  /** `.eq(owner column, owner).eq("status", "active")`. */
  function OwnedActive(owner: string): Subscription -> bool
  {
    (r: Subscription) => r.owner == owner && r.status == Active
  }

  /** `.in("id", ids)`. */
  function IdIn(ids: seq<string>): Subscription -> bool
  {
    (r: Subscription) => r.id in ids
  }

  function ExpireAt(now: int): Subscription -> Subscription
  {
    (r: Subscription) => MarkExpired(r, now)
  }

  function CancelAt(now: int): Subscription -> Subscription
  {
    (r: Subscription) => StampCanceled(r, now)
  }

  /** Expiring rows one key at a time adds up to expiring all those keys at once. */
  lemma ExpireOneMore(rows: seq<Subscription>, ids: seq<string>, id: string, now: int)
    ensures UpdateWhere(UpdateWhere(rows, IdIn(ids), ExpireAt(now)), HasId(id), ExpireAt(now))
         == UpdateWhere(rows, IdIn(ids + [id]), ExpireAt(now))
  {
    var a := UpdateWhere(UpdateWhere(rows, IdIn(ids), ExpireAt(now)), HasId(id), ExpireAt(now));
    var b := UpdateWhere(rows, IdIn(ids + [id]), ExpireAt(now));
    assert forall i :: 0 <= i < |rows| ==> a[i] == b[i];
  }

  /** Rewriting the rows with a given key touches exactly that row in a table with unique keys. */
  lemma UpdateByIdTouchesOne(rows: seq<Subscription>, i: int, f: Subscription -> Subscription)
    requires UniqueIds(rows) && 0 <= i < |rows|
    ensures UpdateWhere(rows, HasId(rows[i].id), f) == rows[i := f(rows[i])]
  {
  }

  /** Rewrites that keep the key keep the table's keys unique. */
  lemma UpdateKeepsUniqueIds(rows: seq<Subscription>, p: Subscription -> bool, f: Subscription -> Subscription)
    requires UniqueIds(rows)
    requires forall r :: f(r).id == r.id
    ensures UniqueIds(UpdateWhere(rows, p, f))
  {
  }
}
