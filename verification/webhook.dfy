/**
 * The payment provider's webhook: signature and idempotence checks, the
 * dispatch on the event name, and each handler's licence transitions.
 * The signature check, the random key symbols and the email service are
 * outcomes passed in.
 */
module Webhook {
  import W = Wrappers
  import Text
  import opened Models
  import opened LicenseUtils
  import opened LicenseStore

  datatype OrderItem = OrderItem(productName: string, variantName: string)

  /** The payload attributes the handlers read; instants are milliseconds, an absent or empty date is None. */
  datatype Attributes = Attributes(
    userEmail: string,
    firstOrderItem: W.Option<OrderItem>,
    productName: W.Option<string>,
    renewsAt: W.Option<int>,
    endsAt: W.Option<int>,
    customerId: W.Option<string>)

  datatype Payload = Payload(eventName: string, dataId: string, attributes: Attributes)

  /**
   * What the outside world answers: whether the secret is configured, the
   * `x-signature` header if sent, the hex HMAC digest of the body under the
   * secret, the symbol draws for a new key, and whether the email service
   * returns (it throws otherwise).
   */
  datatype Oracles = Oracles(secretConfigured: bool, signatureHeader: W.Option<string>, digest: string,
    draws: seq<nat>, emailDelivered: bool)

  /** The signature check on the header, a missing header read as `''`. */
  function SignatureOf(o: Oracles): SignatureCheck {
    VerifyWebhookSignature(if o.signatureHeader.Some? then o.signatureHeader.value else "", o.digest)
  }

  datatype Reply = Reply(status: int, message: string)

  /** The idempotence key, `<event_name>-<data.id>`. */
  function EventKey(eventName: string, dataId: string): string {
    eventName + "-" + dataId
  }

  /** Event names without '-' (all the provider's are) give distinct keys for distinct events. */
  lemma EventKeyInjective(n1: string, id1: string, n2: string, id2: string)
    requires '-' !in n1 && '-' !in n2
    ensures EventKey(n1, id1) == EventKey(n2, id2) <==> n1 == n2 && id1 == id2
  {
    if EventKey(n1, id1) == EventKey(n2, id2) {
      Text.SplitField(n1, '-', id1);
      Text.SplitField(n2, '-', id2);
      var key := EventKey(n1, id1);
      assert key == n1 + ['-'] + id1 && key == n2 + ['-'] + id2;
      assert Text.Split(key, '-')[0] == n1 && Text.Split(key, '-')[0] == n2;
      assert id1 == EventKey(n1, id1)[|n1| + 1..];
    }
  }

  datatype Handler = OrderCreated | SubscriptionCreated | SubscriptionUpdated | SubscriptionCancelled | OrderRefunded | Unhandled

  /** The event names the switch has a case for. */
  const KnownEvents: set<string> := {"order_created", "subscription_created", "subscription_updated", "subscription_payment_success",
    "subscription_cancelled", "subscription_payment_failed", "order_refunded"}

  /** The dispatch: payment success renews like an update, payment failure cancels. */
  function HandlerFor(eventName: string): (h: Handler)
    ensures h == SubscriptionUpdated <==> eventName == "subscription_updated" || eventName == "subscription_payment_success"
    ensures h == SubscriptionCancelled <==> eventName == "subscription_cancelled" || eventName == "subscription_payment_failed"
    ensures h == Unhandled <==> eventName !in KnownEvents
  {
    if eventName == "order_created" then OrderCreated
    else if eventName == "subscription_created" then SubscriptionCreated
    else if eventName == "subscription_updated" || eventName == "subscription_payment_success" then SubscriptionUpdated
    else if eventName == "subscription_cancelled" || eventName == "subscription_payment_failed" then SubscriptionCancelled
    else if eventName == "order_refunded" then OrderRefunded
    else Unhandled
  }

  // ---------- Status transitions ----------

  /** A renewal reactivates an expired licence and leaves active and revoked ones as they are. */
  function RenewedStatus(s: Status): (r: Status)
    ensures s == Expired <==> r == Active && s != Active
    ensures s != Expired ==> r == s
  {
    if s == Expired then Active else s
  }

  /** A cancellation's effect: with an end date the expiry moves there and only a past end expires; without one it expires. */
  function CancelledStatus(s: Status, endsAt: W.Option<int>, now: int): (r: Status)
    ensures endsAt.None? ==> r == Expired
    ensures endsAt.Some? ==> (endsAt.value < now ==> r == Expired) && (endsAt.value >= now ==> r == s)
  {
    match endsAt
    case Some(e) => if e < now then Expired else s
    case None => Expired
  }

  /** A refund revokes for good: no later renewal reactivates a revoked licence. */
  lemma RevokedStays(s: Status, endsAt: W.Option<int>, now: int)
    ensures RenewedStatus(Revoked) == Revoked
    ensures CancelledStatus(Revoked, endsAt, now) != Active
    ensures !IsLicenseValid(RenewedStatus(Revoked), W.None, now)
  {
  }

  // ---------- Handlers; each returns false where the source throws ----------

  predicate Creatable(ls: seq<License>, data: NewLicense) {
    !(exists l :: l in ls && l.licenseKey == data.licenseKey)
    && !(OrNull(data.orderId).Some? && exists l :: l in ls && l.orderId == OrNull(data.orderId))
  }

  function OrderLicense(p: Payload, item: OrderItem, draws: seq<nat>): NewLicense
    requires ValidDraws(draws)
  {
    var tier := ParseTierFromProduct(item.productName, W.Some(item.variantName));
    NewLicense(GenerateLicenseKey(tier, draws), tier, W.Some(p.attributes.userEmail), p.attributes.customerId,
      W.Some(p.dataId), W.None, W.Some(3), W.None)
  }

  function SubscriptionLicense(p: Payload, draws: seq<nat>): NewLicense
    requires ValidDraws(draws)
  {
    NewLicense(GenerateLicenseKey(Pro, draws), Pro, W.Some(p.attributes.userEmail), p.attributes.customerId,
      W.None, W.Some(p.dataId), W.Some(3), CalculateExpiryDate(p.attributes.renewsAt, p.attributes.endsAt))
  }

  /** `handleOrderCreated`: no item, nothing; otherwise one licence for the order, then the email. */
  method HandleOrderCreated(store: Store, p: Payload, o: Oracles) returns (ok: bool)
    requires store.Valid() && ValidDraws(o.draws)
    modifies store`licenses
    ensures store.Valid()
    ensures p.attributes.firstOrderItem.None? ==> ok && store.licenses == old(store.licenses)
    ensures p.attributes.firstOrderItem.Some? ==>
      var data := OrderLicense(p, p.attributes.firstOrderItem.value, o.draws);
      if Creatable(old(store.licenses), data) then
        store.licenses == old(store.licenses) + [Stored(|old(store.licenses)|, data)] && ok == o.emailDelivered
      else
        store.licenses == old(store.licenses) && !ok
  {
    if p.attributes.firstOrderItem.None? {
      return true;
    }
    var data := OrderLicense(p, p.attributes.firstOrderItem.value, o.draws);
    var created := store.CreateLicense(data);
    ok := created.Ok? && o.emailDelivered;
  }

  /** `handleSubscriptionCreated`: always a pro licence with the computed expiry, then the email. */
  method HandleSubscriptionCreated(store: Store, p: Payload, o: Oracles) returns (ok: bool)
    requires store.Valid() && ValidDraws(o.draws)
    modifies store`licenses
    ensures store.Valid()
    ensures var data := SubscriptionLicense(p, o.draws);
      if Creatable(old(store.licenses), data) then
        store.licenses == old(store.licenses) + [Stored(|old(store.licenses)|, data)] && ok == o.emailDelivered
      else
        store.licenses == old(store.licenses) && !ok
  {
    var created := store.CreateLicense(SubscriptionLicense(p, o.draws));
    ok := created.Ok? && o.emailDelivered;
  }

  /** `handleSubscriptionUpdated`: recompute the expiry, and reactivate an expired licence. */
  method HandleSubscriptionUpdated(store: Store, p: Payload)
    requires store.Valid()
    modifies store`licenses
    ensures store.Valid()
    ensures var found := old(store.LicenseBySubscriptionId(p.dataId));
      store.licenses == if found.None? then old(store.licenses)
        else WithStatus(WithExpiry(old(store.licenses), found.value.id, CalculateExpiryDate(p.attributes.renewsAt, p.attributes.endsAt)),
          found.value.id, RenewedStatus(found.value.status))
  {
    var found := store.LicenseBySubscriptionId(p.dataId);
    if found.None? {
      return;
    }
    var l := found.value;
    store.UpdateLicenseExpiry(l.id, CalculateExpiryDate(p.attributes.renewsAt, p.attributes.endsAt));
    if l.status == Expired {
      store.UpdateLicenseStatus(l.id, Active);
    } else {
      assert l == store.licenses[l.id].(expiresAt := l.expiresAt);
      assert store.licenses == WithStatus(store.licenses, l.id, l.status);
    }
  }

  /** `handleSubscriptionCancelled`: move the expiry to the end date if given, and expire as the rule says. */
  method HandleSubscriptionCancelled(store: Store, p: Payload, now: int)
    requires store.Valid()
    modifies store`licenses
    ensures store.Valid()
    ensures var found := old(store.LicenseBySubscriptionId(p.dataId));
      var e := p.attributes.endsAt;
      store.licenses == if found.None? then old(store.licenses)
        else if e.Some? then WithStatus(WithExpiry(old(store.licenses), found.value.id, e), found.value.id,
          CancelledStatus(found.value.status, e, now))
        else WithStatus(old(store.licenses), found.value.id, Expired)
  {
    var found := store.LicenseBySubscriptionId(p.dataId);
    if found.None? {
      return;
    }
    var l := found.value;
    match p.attributes.endsAt
    case Some(e) =>
      store.UpdateLicenseExpiry(l.id, W.Some(e));
      if e < now {
        store.UpdateLicenseStatus(l.id, Expired);
      } else {
        assert l == store.licenses[l.id].(expiresAt := l.expiresAt);
        assert store.licenses == WithStatus(store.licenses, l.id, l.status);
      }
    case None =>
      store.UpdateLicenseStatus(l.id, Expired);
  }

  /** `handleOrderRefunded`: revoke the order's licence, drop all its devices, then the email if there is an address. */
  method HandleOrderRefunded(store: Store, p: Payload, o: Oracles) returns (ok: bool)
    requires store.Valid()
    modifies store`licenses, store`activations
    ensures store.Valid()
    ensures var found := old(store.LicenseByOrderId(p.dataId));
      if found.None? then
        ok && store.licenses == old(store.licenses) && store.activations == old(store.activations)
      else
        store.licenses == WithStatus(old(store.licenses), found.value.id, Revoked)
        && store.activations == WithoutLicense(old(store.activations), found.value.id)
        && ok == (found.value.email.None? || o.emailDelivered)
  {
    var found := store.LicenseByOrderId(p.dataId);
    if found.None? {
      return true;
    }
    var l := found.value;
    store.UpdateLicenseStatus(l.id, Revoked);
    store.RemoveAllActivations(l.id);
    ok := l.email.None? || o.emailDelivered;
  }

  // ---------- The route ----------

  /**
   * Whether the handler for the event returns rather than throws: creating
   * needs a free key and order id and a delivered email, a refund needs the
   * email only when the licence has an address; the others always return.
   */
  predicate HandlerReturns(ls: seq<License>, p: Payload, o: Oracles)
    requires ValidDraws(o.draws)
  {
    match HandlerFor(p.eventName)
    case OrderCreated =>
      p.attributes.firstOrderItem.None?
      || (Creatable(ls, OrderLicense(p, p.attributes.firstOrderItem.value, o.draws)) && o.emailDelivered)
    case SubscriptionCreated => Creatable(ls, SubscriptionLicense(p, o.draws)) && o.emailDelivered
    case OrderRefunded =>
      var found := Lookup(ls, OrderColumn, p.dataId);
      found.None? || found.value.email.None? || o.emailDelivered
    case _ => true
  }

  /** The licence table after the handler for the event has run. */
  function LicensesAfter(ls: seq<License>, p: Payload, o: Oracles, now: int): seq<License>
    requires ValidDraws(o.draws)
  {
    match HandlerFor(p.eventName)
    case OrderCreated =>
      if p.attributes.firstOrderItem.None? then ls
      else
        var data := OrderLicense(p, p.attributes.firstOrderItem.value, o.draws);
        if Creatable(ls, data) then ls + [Stored(|ls|, data)] else ls
    case SubscriptionCreated =>
      var data := SubscriptionLicense(p, o.draws);
      if Creatable(ls, data) then ls + [Stored(|ls|, data)] else ls
    case SubscriptionUpdated =>
      var found := Lookup(ls, SubscriptionColumn, p.dataId);
      if found.None? then ls
      else WithStatus(WithExpiry(ls, found.value.id, CalculateExpiryDate(p.attributes.renewsAt, p.attributes.endsAt)),
        found.value.id, RenewedStatus(found.value.status))
    case SubscriptionCancelled =>
      var found := Lookup(ls, SubscriptionColumn, p.dataId);
      var e := p.attributes.endsAt;
      if found.None? then ls
      else if e.Some? then WithStatus(WithExpiry(ls, found.value.id, e), found.value.id, CancelledStatus(found.value.status, e, now))
      else WithStatus(ls, found.value.id, Expired)
    case OrderRefunded =>
      var found := Lookup(ls, OrderColumn, p.dataId);
      if found.None? then ls else WithStatus(ls, found.value.id, Revoked)
    case Unhandled => ls
  }

  /** The activations after the handler for the event has run: only a refund of a known order drops that licence's devices. */
  function ActivationsAfter(ls: seq<License>, acts: map<(nat, string), Activation>, p: Payload): map<(nat, string), Activation> {
    if HandlerFor(p.eventName) != OrderRefunded then acts
    else
      var found := Lookup(ls, OrderColumn, p.dataId);
      if found.None? then acts else WithoutLicense(acts, found.value.id)
  }

  /** A refund of a known order leaves its licence revoked with no devices, and every other licence's devices as they were. */
  lemma RefundLeavesNoDevices(ls: seq<License>, acts: map<(nat, string), Activation>, p: Payload, o: Oracles, now: int, other: nat)
    requires ValidDraws(o.draws)
    requires HandlerFor(p.eventName) == OrderRefunded && Lookup(ls, OrderColumn, p.dataId).Some?
    ensures var id := Lookup(ls, OrderColumn, p.dataId).value.id;
      DevicesOf(ActivationsAfter(ls, acts, p), id) == {}
      && (other != id ==> DevicesOf(ActivationsAfter(ls, acts, p), other) == DevicesOf(acts, other))
      && LicensesAfter(ls, p, o, now) == WithStatus(ls, id, Revoked)
  {
    RemoveAllDevices(acts, Lookup(ls, OrderColumn, p.dataId).value.id, other);
  }

  /** An unhandled event changes nothing and returns; only a refund touches the activations. */
  lemma AfterOtherEvents(ls: seq<License>, acts: map<(nat, string), Activation>, p: Payload, o: Oracles, now: int)
    requires ValidDraws(o.draws)
    ensures HandlerFor(p.eventName) == Unhandled ==>
      HandlerReturns(ls, p, o) && LicensesAfter(ls, p, o, now) == ls && ActivationsAfter(ls, acts, p) == acts
    ensures HandlerFor(p.eventName) != OrderRefunded ==> ActivationsAfter(ls, acts, p) == acts
  {
  }

  /** A request without an `x-signature` header, under a configured secret, makes the comparison throw. */
  lemma UnsignedRequestThrows(o: Oracles)
    requires o.signatureHeader.None? && o.digest != ""
    ensures SignatureOf(o) == LengthMismatch
  {
    EmptySignatureThrows(o.digest);
  }

  /** The switch on the event name; an unhandled name runs nothing. Returns false where a handler throws. */
  method Dispatch(store: Store, p: Payload, o: Oracles, now: int) returns (ok: bool)
    requires store.Valid() && ValidDraws(o.draws)
    modifies store`licenses, store`activations
    ensures store.Valid()
    ensures ok == HandlerReturns(old(store.licenses), p, o)
    ensures store.licenses == LicensesAfter(old(store.licenses), p, o, now)
    ensures store.activations == ActivationsAfter(old(store.licenses), old(store.activations), p)
    ensures HandlerFor(p.eventName) == Unhandled ==>
      ok && store.licenses == old(store.licenses) && store.activations == old(store.activations)
    ensures HandlerFor(p.eventName) != OrderRefunded ==> store.activations == old(store.activations)
  {
    ok := true;
    AfterOtherEvents(store.licenses, store.activations, p, o, now);
    match HandlerFor(p.eventName) {
      case OrderCreated =>
        ok := HandleOrderCreated(store, p, o);
      case SubscriptionCreated =>
        ok := HandleSubscriptionCreated(store, p, o);
      case SubscriptionUpdated =>
        HandleSubscriptionUpdated(store, p);
      case SubscriptionCancelled =>
        HandleSubscriptionCancelled(store, p, now);
      case OrderRefunded =>
        ok := HandleOrderRefunded(store, p, o);
      case Unhandled =>
    }
  }

  /**
   * The webhook route. Configuration and signature failures change nothing;
   * an already processed event is acknowledged without running a handler;
   * otherwise the handler runs and, unless it throws, the event is marked.
   */
  method HandleWebhook(store: Store, p: Payload, o: Oracles, now: int) returns (r: Reply)
    requires store.Valid() && ValidDraws(o.draws)
    modifies store`licenses, store`activations, store`events
    ensures store.Valid()
    ensures !o.secretConfigured ==> r == Reply(500, "Server configuration error")
    ensures o.secretConfigured && SignatureOf(o) == Mismatch ==> r == Reply(401, "Invalid signature")
    ensures o.secretConfigured && SignatureOf(o) == LengthMismatch ==> r == Reply(500, "Internal error")
    ensures !o.secretConfigured || SignatureOf(o) != Match || EventKey(p.eventName, p.dataId) in old(store.events) ==>
      store.licenses == old(store.licenses) && store.activations == old(store.activations) && store.events == old(store.events)
    ensures o.secretConfigured && SignatureOf(o) == Match && EventKey(p.eventName, p.dataId) in old(store.events) ==>
      r == Reply(200, "Already processed")
    ensures o.secretConfigured && SignatureOf(o) == Match && EventKey(p.eventName, p.dataId) !in old(store.events) ==>
      if HandlerReturns(old(store.licenses), p, o) then
        r == Reply(200, "Webhook processed") && store.events == Mark(old(store.events), EventKey(p.eventName, p.dataId), p.eventName)
      else
        r == Reply(500, "Internal error") && store.events == old(store.events)
    ensures o.secretConfigured && SignatureOf(o) == Match && EventKey(p.eventName, p.dataId) !in old(store.events) ==>
      store.licenses == LicensesAfter(old(store.licenses), p, o, now)
      && store.activations == ActivationsAfter(old(store.licenses), old(store.activations), p)
    ensures HandlerFor(p.eventName) == Unhandled ==>
      store.licenses == old(store.licenses) && store.activations == old(store.activations)
    ensures r.status == 200 ==> EventKey(p.eventName, p.dataId) in store.events
    ensures HandlerFor(p.eventName) != OrderRefunded ==> store.activations == old(store.activations)
  {
    if !o.secretConfigured {
      return Reply(500, "Server configuration error");
    }
    var check := SignatureOf(o);
    if check == LengthMismatch {
      // timingSafeEqual throws; the route's catch answers
      return Reply(500, "Internal error");
    }
    if check == Mismatch {
      return Reply(401, "Invalid signature");
    }
    var key := EventKey(p.eventName, p.dataId);
    if store.IsEventProcessed(key) {
      return Reply(200, "Already processed");
    }
    var ok := Dispatch(store, p, o, now);
    if !ok {
      return Reply(500, "Internal error");
    }
    store.MarkEventProcessed(key, p.eventName);
    r := Reply(200, "Webhook processed");
  }
}
