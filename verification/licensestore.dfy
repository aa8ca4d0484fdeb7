/**
 * The licence server's store: the licences table, the per-licence device
 * activations (unique per licence and device) and the processed webhook
 * events (unique per event id), with the semantics of each statement.
 */
module LicenseStore {
  import W = Wrappers
  import opened Models
  import opened LicenseUtils

  /** `getFeatureLimits`: the backend's own copy of the tier table. */
  function GetFeatureLimits(tier: Tier): FeatureLimits {
    match tier
    case Free => FeatureLimits(W.Some(2), W.Some(3), W.Some(7), false, true, false, false, false)
    case Pro | Lifetime => FeatureLimits(W.None, W.None, W.None, true, true, true, true, true)
  }

  /** The server's table agrees with the desktop app's, tier by tier. */
  lemma FeatureLimitsAgree(tier: Tier)
    ensures GetFeatureLimits(tier) == ForTier(tier)
    ensures GetFeatureLimits(Pro) == GetFeatureLimits(Lifetime)
    ensures GetFeatureLimits(Free).maxSessionTypes == W.Some(2) && GetFeatureLimits(Free).maxGoals == W.Some(3)
      && GetFeatureLimits(Free).analyticsDays == W.Some(7)
  {
  }

  // ---------- Records ----------

  /** A licence row; its id is its position in the table. */
  datatype License = License(
    id: nat,
    licenseKey: string,
    tier: Tier,
    status: Status,
    email: W.Option<string>,
    customerId: W.Option<string>,
    orderId: W.Option<string>,
    subscriptionId: W.Option<string>,
    maxActivations: int,
    expiresAt: W.Option<int>)

  /** The fields `createLicense` is given; absent ones are None. */
  datatype NewLicense = NewLicense(
    licenseKey: string,
    tier: Tier,
    email: W.Option<string>,
    customerId: W.Option<string>,
    orderId: W.Option<string>,
    subscriptionId: W.Option<string>,
    maxActivations: W.Option<int>,
    expiresAt: W.Option<int>)

  datatype Activation = Activation(deviceName: W.Option<string>, activatedAt: int)

  /** `value || null` on an optional string: absent and empty both store null. */
  function OrNull(s: W.Option<string>): (r: W.Option<string>)
    ensures r.None? <==> s.None? || s.value == ""
    ensures r.Some? ==> r == s
  {
    if s.Some? && s.value != "" then s else W.None
  }

  /** `max_activations || 3`: absent and zero both store three. */
  function StoredMaxActivations(m: W.Option<int>): (n: int)
    ensures n != 0
    ensures m.None? || m.value == 0 ==> n == 3
    ensures m.Some? && m.value != 0 ==> n == m.value
  {
    if m.Some? && m.value != 0 then m.value else 3
  }

  function Stored(id: nat, data: NewLicense): (l: License)
    ensures l.id == id && l.status == Active && l.licenseKey == data.licenseKey && l.tier == data.tier
    ensures l.maxActivations == StoredMaxActivations(data.maxActivations) && l.expiresAt == data.expiresAt
    ensures l.email == OrNull(data.email) && l.customerId == OrNull(data.customerId)
    ensures l.orderId == OrNull(data.orderId) && l.subscriptionId == OrNull(data.subscriptionId)
  {
    License(id, data.licenseKey, data.tier, Active, OrNull(data.email), OrNull(data.customerId),
      OrNull(data.orderId), OrNull(data.subscriptionId), StoredMaxActivations(data.maxActivations), data.expiresAt)
  }

  // ---------- Lookups ----------

  datatype Column = KeyColumn | OrderColumn | SubscriptionColumn

  predicate Matches(l: License, c: Column, value: string) {
    match c
    case KeyColumn => l.licenseKey == value
    case OrderColumn => l.orderId == W.Some(value)
    case SubscriptionColumn => l.subscriptionId == W.Some(value)
  }

  /** The first row, in table order, whose column holds the value (`result[0] || null`). */
  function FirstMatch(ls: seq<License>, c: Column, value: string): (r: W.Option<nat>)
    ensures r.Some? ==> r.value < |ls| && Matches(ls[r.value], c, value)
    ensures r.Some? ==> forall j :: 0 <= j < r.value ==> !Matches(ls[j], c, value)
    ensures r.None? <==> forall j :: 0 <= j < |ls| ==> !Matches(ls[j], c, value)
    decreases |ls|
  {
    if ls == [] then W.None
    else if Matches(ls[0], c, value) then W.Some(0)
    else
      var r := FirstMatch(ls[1..], c, value);
      if r.Some? then
        assert forall j :: 0 <= j < r.value + 1 ==> j == 0 || ls[j] == ls[1..][j - 1];
        W.Some(r.value + 1)
      else
        assert forall j :: 0 < j < |ls| ==> ls[j] == ls[1..][j - 1];
        W.None
  }

  function Lookup(ls: seq<License>, c: Column, value: string): (r: W.Option<License>)
    ensures r.Some? ==> r.value in ls && Matches(r.value, c, value)
    ensures r.None? <==> forall l :: l in ls ==> !Matches(l, c, value)
  {
    match FirstMatch(ls, c, value)
    case Some(i) => W.Some(ls[i])
    case None => W.None
  }

  // ---------- Updates as functions of the old state ----------

  /** `updateLicenseStatus`: only that row's status changes; an unknown id changes nothing. */
  function WithStatus(ls: seq<License>, id: nat, s: Status): (r: seq<License>)
    ensures |r| == |ls|
    ensures forall j :: 0 <= j < |ls| && j != id ==> r[j] == ls[j]
    ensures id < |ls| ==> r[id] == ls[id].(status := s)
  {
    if id < |ls| then ls[id := ls[id].(status := s)] else ls
  }

  /** `updateLicenseExpiry`: only that row's expiry changes. */
  function WithExpiry(ls: seq<License>, id: nat, e: W.Option<int>): (r: seq<License>)
    ensures |r| == |ls|
    ensures forall j :: 0 <= j < |ls| && j != id ==> r[j] == ls[j]
    ensures id < |ls| ==> r[id] == ls[id].(expiresAt := e)
  {
    if id < |ls| then ls[id := ls[id].(expiresAt := e)] else ls
  }

  /** The devices activated for a licence. */
  function DevicesOf(acts: map<(nat, string), Activation>, licenseId: nat): set<string> {
    set k | k in acts && k.0 == licenseId :: k.1
  }

  /** `addActivation`: insert, or on conflict refresh only the activation time. */
  function Upsert(acts: map<(nat, string), Activation>, licenseId: nat, deviceId: string, deviceName: W.Option<string>, now: int): (r: map<(nat, string), Activation>)
    ensures (licenseId, deviceId) in r && r[(licenseId, deviceId)].activatedAt == now
    ensures (licenseId, deviceId) in acts ==> r[(licenseId, deviceId)].deviceName == acts[(licenseId, deviceId)].deviceName
    ensures (licenseId, deviceId) !in acts ==> r[(licenseId, deviceId)].deviceName == OrNull(deviceName)
    ensures forall k :: k != (licenseId, deviceId) ==> (k in r <==> k in acts) && (k in acts ==> r[k] == acts[k])
  {
    var k := (licenseId, deviceId);
    if k in acts then acts[k := acts[k].(activatedAt := now)] else acts[k := Activation(OrNull(deviceName), now)]
  }

  /** `removeAllActivations`: every activation of that licence goes. */
  function WithoutLicense(acts: map<(nat, string), Activation>, licenseId: nat): (r: map<(nat, string), Activation>)
    ensures forall k :: k in r <==> k in acts && k.0 != licenseId
    ensures forall k :: k in r ==> r[k] == acts[k]
  {
    map k | k in acts && k.0 != licenseId :: acts[k]
  }

  /** `markEventProcessed`: insert, or on conflict do nothing. */
  function Mark(events: map<string, string>, eventId: string, eventType: string): (r: map<string, string>)
    ensures eventId in r && (eventId in events ==> r == events)
    ensures eventId !in events ==> r == events[eventId := eventType]
  {
    if eventId in events then events else events[eventId := eventType]
  }

  // ---------- What the updates do to the activation sets ----------

  /** Adding keeps one activation per device: the licence's set gains the device, and no other set changes. */
  lemma UpsertDevices(acts: map<(nat, string), Activation>, licenseId: nat, deviceId: string, deviceName: W.Option<string>, now: int, other: nat)
    ensures DevicesOf(Upsert(acts, licenseId, deviceId, deviceName, now), licenseId) == DevicesOf(acts, licenseId) + {deviceId}
    ensures other != licenseId ==> DevicesOf(Upsert(acts, licenseId, deviceId, deviceName, now), other) == DevicesOf(acts, other)
    ensures |DevicesOf(Upsert(acts, licenseId, deviceId, deviceName, now), licenseId)|
      == |DevicesOf(acts, licenseId)| + (if deviceId in DevicesOf(acts, licenseId) then 0 else 1)
  {
    var r := Upsert(acts, licenseId, deviceId, deviceName, now);
    assert DevicesOf(r, licenseId) == DevicesOf(acts, licenseId) + {deviceId} by {
      forall d ensures d in DevicesOf(r, licenseId) <==> d in DevicesOf(acts, licenseId) || d == deviceId {
        if d in DevicesOf(acts, licenseId) {
          assert (licenseId, d) in r;
        }
        if d in DevicesOf(r, licenseId) && d != deviceId {
          assert (licenseId, d) in acts;
        }
      }
    }
    if other != licenseId {
      forall d ensures d in DevicesOf(r, other) <==> d in DevicesOf(acts, other) {
        if d in DevicesOf(acts, other) {
          assert (other, d) in r;
        }
        if d in DevicesOf(r, other) {
          assert (other, d) in acts;
        }
      }
    }
  }

  /** `removeActivation` takes away exactly that device of that licence. */
  lemma RemoveDevice(acts: map<(nat, string), Activation>, licenseId: nat, deviceId: string, other: nat)
    ensures DevicesOf(acts - {(licenseId, deviceId)}, licenseId) == DevicesOf(acts, licenseId) - {deviceId}
    ensures other != licenseId ==> DevicesOf(acts - {(licenseId, deviceId)}, other) == DevicesOf(acts, other)
  {
    var r := acts - {(licenseId, deviceId)};
    forall d ensures d in DevicesOf(r, licenseId) <==> d in DevicesOf(acts, licenseId) && d != deviceId {
      if d in DevicesOf(acts, licenseId) && d != deviceId {
        assert (licenseId, d) in r;
      }
    }
    if other != licenseId {
      forall d ensures d in DevicesOf(r, other) <==> d in DevicesOf(acts, other) {
        if d in DevicesOf(acts, other) {
          assert (other, d) in r;
        }
      }
    }
  }

  /** `removeAllActivations` empties that licence's set and leaves the others. */
  lemma RemoveAllDevices(acts: map<(nat, string), Activation>, licenseId: nat, other: nat)
    ensures DevicesOf(WithoutLicense(acts, licenseId), licenseId) == {}
    ensures other != licenseId ==> DevicesOf(WithoutLicense(acts, licenseId), other) == DevicesOf(acts, other)
  {
    var r := WithoutLicense(acts, licenseId);
    if other != licenseId {
      forall d ensures d in DevicesOf(r, other) <==> d in DevicesOf(acts, other) {
        if d in DevicesOf(acts, other) {
          assert (other, d) in r;
        }
      }
    }
  }

  /** Marking twice is marking once, and the event reads as processed afterwards. */
  lemma MarkIdempotent(events: map<string, string>, eventId: string, eventType: string, laterType: string)
    ensures Mark(Mark(events, eventId, eventType), eventId, laterType) == Mark(events, eventId, eventType)
    ensures eventId in Mark(events, eventId, eventType)
    ensures forall e :: e in events ==> e in Mark(events, eventId, eventType) && Mark(events, eventId, eventType)[e] == events[e]
  {
  }

  // ---------- The store ----------

  predicate KeysUnique(ls: seq<License>) {
    forall i, j :: 0 <= i < j < |ls| ==> ls[i].licenseKey != ls[j].licenseKey
  }

  predicate OrdersUnique(ls: seq<License>) {
    forall i, j :: 0 <= i < j < |ls| && ls[i].orderId.Some? ==> ls[i].orderId != ls[j].orderId
  }

  predicate IdsArePositions(ls: seq<License>) {
    forall i :: 0 <= i < |ls| ==> ls[i].id == i
  }

  /** A new row at the next position, with a new key and a new (or no) order id, keeps the table well formed. */
  lemma AppendKeepsTable(ls: seq<License>, l: License)
    requires IdsArePositions(ls) && KeysUnique(ls) && OrdersUnique(ls) && l.id == |ls|
    requires forall x :: x in ls ==> x.licenseKey != l.licenseKey
    requires l.orderId.Some? ==> forall x :: x in ls ==> x.orderId != l.orderId
    ensures IdsArePositions(ls + [l]) && KeysUnique(ls + [l]) && OrdersUnique(ls + [l])
  {
    var t := ls + [l];
    forall i, j | 0 <= i < j < |t| ensures t[i].licenseKey != t[j].licenseKey {
      if j == |ls| {
        assert t[i] in ls;
      }
    }
    forall i, j | 0 <= i < j < |t| && t[i].orderId.Some? ensures t[i].orderId != t[j].orderId {
      if j == |ls| {
        assert t[i] in ls;
      }
    }
  }

  /** Updating a status or an expiry keeps ids, keys and order ids, so the table stays well formed. */
  lemma UpdatesKeepTable(ls: seq<License>, id: nat, s: Status, e: W.Option<int>)
    requires IdsArePositions(ls) && KeysUnique(ls) && OrdersUnique(ls)
    ensures IdsArePositions(WithStatus(ls, id, s)) && KeysUnique(WithStatus(ls, id, s)) && OrdersUnique(WithStatus(ls, id, s))
    ensures IdsArePositions(WithExpiry(ls, id, e)) && KeysUnique(WithExpiry(ls, id, e)) && OrdersUnique(WithExpiry(ls, id, e))
  {
  }

  class Store {
    var licenses: seq<License>
    var activations: map<(nat, string), Activation>
    var events: map<string, string>

    /** The schema's constraints: ids are positions, keys and order ids are unique. */
    ghost predicate Valid()
      reads this
    {
      IdsArePositions(licenses) && KeysUnique(licenses) && OrdersUnique(licenses)
    }

    constructor()
      ensures Valid() && licenses == [] && activations == map[] && events == map[]
    {
      licenses := [];
      activations := map[];
      events := map[];
    }

    function LicenseByKey(key: string): W.Option<License>
      reads this
    {
      Lookup(licenses, KeyColumn, key)
    }

    function LicenseByOrderId(orderId: string): W.Option<License>
      reads this
    {
      Lookup(licenses, OrderColumn, orderId)
    }

    function LicenseBySubscriptionId(subscriptionId: string): W.Option<License>
      reads this
    {
      Lookup(licenses, SubscriptionColumn, subscriptionId)
    }

    function Devices(licenseId: nat): set<string>
      reads this
    {
      DevicesOf(activations, licenseId)
    }

    /** `getActivationCount`. */
    function ActivationCount(licenseId: nat): nat
      reads this
    {
      |Devices(licenseId)|
    }

    predicate IsEventProcessed(eventId: string)
      reads this
    {
      eventId in events
    }

    /**
     * `createLicense`: fails, changing nothing, when the key or the order id
     * is already taken; otherwise appends the row with status active.
     */
    method CreateLicense(data: NewLicense) returns (r: W.Result<License, string>)
      requires Valid()
      modifies this`licenses
      ensures Valid()
      ensures r.Err? <==> ((exists l :: l in old(licenses) && l.licenseKey == data.licenseKey)
        || (OrNull(data.orderId).Some? && exists l :: l in old(licenses) && l.orderId == OrNull(data.orderId)))
      ensures r.Err? ==> licenses == old(licenses)
      ensures r.Ok? ==> r.value == Stored(|old(licenses)|, data) && licenses == old(licenses) + [r.value]
    {
      var stored := Stored(|licenses|, data);
      if exists l :: l in licenses && l.licenseKey == data.licenseKey {
        return W.Err("duplicate key value violates unique constraint \"licenses_license_key_key\"");
      }
      if stored.orderId.Some? && exists l :: l in licenses && l.orderId == stored.orderId {
        return W.Err("duplicate key value violates unique constraint \"licenses_order_id_key\"");
      }
      AppendKeepsTable(licenses, stored);
      licenses := licenses + [stored];
      r := W.Ok(stored);
    }

    method UpdateLicenseStatus(id: nat, status: Status)
      requires Valid()
      modifies this`licenses
      ensures Valid() && licenses == WithStatus(old(licenses), id, status)
    {
      UpdatesKeepTable(licenses, id, status, W.None);
      licenses := WithStatus(licenses, id, status);
    }

    method UpdateLicenseExpiry(id: nat, expiresAt: W.Option<int>)
      requires Valid()
      modifies this`licenses
      ensures Valid() && licenses == WithExpiry(old(licenses), id, expiresAt)
    {
      UpdatesKeepTable(licenses, id, Active, expiresAt);
      licenses := WithExpiry(licenses, id, expiresAt);
    }

    method AddActivation(licenseId: nat, deviceId: string, deviceName: W.Option<string>, now: int)
      modifies this`activations
      ensures activations == Upsert(old(activations), licenseId, deviceId, deviceName, now)
    {
      activations := Upsert(activations, licenseId, deviceId, deviceName, now);
    }

    method RemoveActivation(licenseId: nat, deviceId: string)
      modifies this`activations
      ensures activations == old(activations) - {(licenseId, deviceId)}
    {
      activations := activations - {(licenseId, deviceId)};
    }

    method RemoveAllActivations(licenseId: nat)
      modifies this`activations
      ensures activations == WithoutLicense(old(activations), licenseId)
    {
      activations := WithoutLicense(activations, licenseId);
    }

    method MarkEventProcessed(eventId: string, eventType: string)
      modifies this`events
      ensures events == Mark(old(events), eventId, eventType)
    {
      events := Mark(events, eventId, eventType);
    }
  }
}
