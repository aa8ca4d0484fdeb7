/**
 * The activate, validate and deactivate routes. Each decision chain is a
 * function of the looked-up licence and its device set; the routes that
 * change the store apply it. A required field that is missing is the empty
 * string, since both are falsy in the checks.
 */
module LicenseRoutes {
  import W = Wrappers
  import Text
  import opened Models
  import opened LicenseUtils
  import opened LicenseStore

  datatype Usage = Usage(count: nat, max: int)

  function IntToString(n: int): string {
    if n >= 0 then Text.NatToString(n) else "-" + Text.NatToString(-n)
  }

  /** The 403 message for a licence that is not valid. */
  function InvalidMessage(l: License): string {
    if l.status == Revoked then "License has been revoked" else "License has expired"
  }

  function DevicesFor(store: Store, found: W.Option<License>): set<string>
    reads store
  {
    if found.Some? then store.Devices(found.value.id) else {}
  }

  // ---------- Activate ----------

  datatype ActivateRequest = ActivateRequest(licenseKey: string, deviceId: string, deviceName: W.Option<string>)

  datatype ActivateData = ActivateData(tier: Tier, limits: FeatureLimits, activation: Usage)

  /** Where the activation chain ends. */
  datatype ActivateStep = Refuse(status: int, message: string) | AlreadyActive(license: License) | AddDevice(license: License)

  function ActivateStepOf(req: ActivateRequest, found: W.Option<License>, devices: set<string>, now: int): ActivateStep {
    if req.licenseKey == "" || req.deviceId == "" then Refuse(400, "license_key and device_id are required")
    else if found.None? then Refuse(404, "License not found")
    else
      var l := found.value;
      if !IsLicenseValid(l.status, l.expiresAt, now) then Refuse(403, InvalidMessage(l))
      else if req.deviceId in devices then AlreadyActive(l)
      else if |devices| >= l.maxActivations then
        Refuse(403, "Maximum activations reached (" + IntToString(l.maxActivations) + "). Deactivate another device first.")
      else AddDevice(l)
  }

  function ActivateReply(step: ActivateStep, devices: set<string>): Response<ActivateData> {
    match step
    case Refuse(status, message) => ErrorResponse(message, status)
    case AlreadyActive(l) => SuccessResponse(ActivateData(l.tier, GetFeatureLimits(l.tier), Usage(|devices|, l.maxActivations)))
    case AddDevice(l) => SuccessResponse(ActivateData(l.tier, GetFeatureLimits(l.tier), Usage(|devices| + 1, l.maxActivations)))
  }

  /** The activate route: only a new device on a valid licence with room changes the store. */
  method Activate(store: Store, req: ActivateRequest, now: int) returns (r: Response<ActivateData>)
    modifies store`activations
    ensures var found := store.LicenseByKey(req.licenseKey);
      var devices := old(DevicesFor(store, found));
      var step := ActivateStepOf(req, found, devices, now);
      r == ActivateReply(step, devices)
      && store.activations == if step.AddDevice? then Upsert(old(store.activations), step.license.id, req.deviceId, req.deviceName, now)
        else old(store.activations)
  {
    var found := store.LicenseByKey(req.licenseKey);
    var devices := DevicesFor(store, found);
    var step := ActivateStepOf(req, found, devices, now);
    if step.AddDevice? {
      store.AddActivation(step.license.id, req.deviceId, req.deviceName, now);
    }
    r := ActivateReply(step, devices);
  }

  /** Missing fields, an unknown key and an invalid licence are refused with 400, 404 and 403. */
  lemma ActivateRefusals(req: ActivateRequest, found: W.Option<License>, devices: set<string>, now: int)
    ensures req.licenseKey == "" || req.deviceId == "" ==> ActivateReply(ActivateStepOf(req, found, devices, now), devices).status == 400
    ensures req.licenseKey != "" && req.deviceId != "" && found.None? ==>
      ActivateReply(ActivateStepOf(req, found, devices, now), devices) == ErrorReply(404, "License not found")
    ensures req.licenseKey != "" && req.deviceId != "" && found.Some? && found.value.status == Revoked ==>
      ActivateReply(ActivateStepOf(req, found, devices, now), devices) == ErrorReply(403, "License has been revoked")
    ensures req.licenseKey != "" && req.deviceId != "" && found.Some? && found.value.status == Expired ==>
      ActivateReply(ActivateStepOf(req, found, devices, now), devices) == ErrorReply(403, "License has expired")
  {
  }

  /**
   * On a valid licence: a device already present succeeds with the count
   * unchanged; a new one is refused when the set is full and otherwise added,
   * reporting one more, which is at most the maximum.
   */
  lemma ActivateOnValid(req: ActivateRequest, l: License, devices: set<string>, now: int)
    requires req.licenseKey != "" && req.deviceId != "" && IsLicenseValid(l.status, l.expiresAt, now)
    ensures req.deviceId in devices ==>
      ActivateStepOf(req, W.Some(l), devices, now) == AlreadyActive(l)
      && ActivateReply(AlreadyActive(l), devices).data.activation == Usage(|devices|, l.maxActivations)
    ensures req.deviceId !in devices && |devices| >= l.maxActivations ==>
      ActivateStepOf(req, W.Some(l), devices, now).Refuse? && ActivateStepOf(req, W.Some(l), devices, now).status == 403
    ensures req.deviceId !in devices && |devices| < l.maxActivations ==>
      ActivateStepOf(req, W.Some(l), devices, now) == AddDevice(l)
      && ActivateReply(AddDevice(l), devices).data.activation.count == |devices| + 1 <= l.maxActivations
  {
  }

  /**
   * After a successful activation the device is in the licence's set, and a
   * set within its maximum stays within it.
   */
  lemma ActivateOutcome(req: ActivateRequest, l: License, acts: map<(nat, string), Activation>, now: int)
    requires ActivateStepOf(req, W.Some(l), DevicesOf(acts, l.id), now).AlreadyActive?
      || ActivateStepOf(req, W.Some(l), DevicesOf(acts, l.id), now).AddDevice?
    ensures var step := ActivateStepOf(req, W.Some(l), DevicesOf(acts, l.id), now);
      var after := if step.AddDevice? then Upsert(acts, l.id, req.deviceId, req.deviceName, now) else acts;
      req.deviceId in DevicesOf(after, l.id)
      && (|DevicesOf(acts, l.id)| <= l.maxActivations ==> |DevicesOf(after, l.id)| <= l.maxActivations)
  {
    UpsertDevices(acts, l.id, req.deviceId, req.deviceName, now, l.id);
  }

  // ---------- Validate ----------

  /** A device id that is absent is the empty string. */
  datatype ValidateRequest = ValidateRequest(licenseKey: string, deviceId: string)

  datatype ActivationState = ActivationState(count: nat, max: int, isActivated: bool, canActivate: bool)

  datatype ValidateData =
    | NotFound(error: string)
    | Invalid(error: string, tier: Tier, limits: FeatureLimits)
    | Valid(tier: Tier, status: Status, expiresAt: W.Option<int>, limits: FeatureLimits, activation: ActivationState)

  function ValidateReply(req: ValidateRequest, found: W.Option<License>, devices: set<string>, now: int): Response<ValidateData> {
    if req.licenseKey == "" then ErrorResponse("license_key is required")
    else if found.None? then SuccessResponse(NotFound("License not found"))
    else
      var l := found.value;
      if !IsLicenseValid(l.status, l.expiresAt, now) then SuccessResponse(Invalid(InvalidMessage(l), Free, GetFeatureLimits(Free)))
      else
        var isActivated := req.deviceId != "" && req.deviceId in devices;
        SuccessResponse(Valid(l.tier, l.status, l.expiresAt, GetFeatureLimits(l.tier),
          ActivationState(|devices|, l.maxActivations, isActivated, isActivated || |devices| < l.maxActivations)))
  }

  /** The validate route: read-only. */
  function Validate(store: Store, req: ValidateRequest, now: int): (r: Response<ValidateData>)
    reads store
    ensures r.ErrorReply? <==> req.licenseKey == ""
    ensures r.SuccessReply? ==> r.status == 200 && (r.data.NotFound? <==> store.LicenseByKey(req.licenseKey).None?)
    ensures r.SuccessReply? && r.data.Valid? ==>
      store.LicenseByKey(req.licenseKey).Some?
      && IsLicenseValid(store.LicenseByKey(req.licenseKey).value.status, store.LicenseByKey(req.licenseKey).value.expiresAt, now)
      && r.data.tier == store.LicenseByKey(req.licenseKey).value.tier
      && r.data.activation.count == |store.Devices(store.LicenseByKey(req.licenseKey).value.id)|
  {
    var found := store.LicenseByKey(req.licenseKey);
    ValidateReply(req, found, DevicesFor(store, found), now)
  }

  /**
   * A missing key is a 400; an unknown key and an invalid licence are
   * answered with 200 and valid false, the latter with the free tier.
   */
  lemma ValidateCases(req: ValidateRequest, found: W.Option<License>, devices: set<string>, now: int)
    ensures req.licenseKey == "" <==> ValidateReply(req, found, devices, now).ErrorReply?
    ensures req.licenseKey == "" ==> ValidateReply(req, found, devices, now).status == 400
    ensures req.licenseKey != "" ==> ValidateReply(req, found, devices, now).status == 200
    ensures req.licenseKey != "" && found.None? ==> ValidateReply(req, found, devices, now).data.NotFound?
    ensures req.licenseKey != "" && found.Some? && !IsLicenseValid(found.value.status, found.value.expiresAt, now) ==>
      ValidateReply(req, found, devices, now).data == Invalid(InvalidMessage(found.value), Free, GetFeatureLimits(Free))
  {
  }

  /**
   * A valid licence reports its own tier and limits and its device count;
   * without a device id it is never reported activated, and activation is
   * possible exactly when the device is in or there is room.
   */
  lemma ValidateOnValid(req: ValidateRequest, l: License, devices: set<string>, now: int)
    requires req.licenseKey != "" && IsLicenseValid(l.status, l.expiresAt, now)
    ensures var d := ValidateReply(req, W.Some(l), devices, now).data;
      d.Valid? && d.tier == l.tier && d.limits == GetFeatureLimits(l.tier) && d.activation.count == |devices|
      && (d.activation.isActivated <==> req.deviceId != "" && req.deviceId in devices)
      && (d.activation.canActivate <==> d.activation.isActivated || |devices| < l.maxActivations)
  {
  }

  /** What validate promises, activate keeps: can_activate means the same device is then activated. */
  lemma ValidateAgreesWithActivate(key: string, deviceId: string, name: W.Option<string>, l: License, devices: set<string>, now: int)
    requires key != "" && deviceId != ""
    requires ValidateReply(ValidateRequest(key, deviceId), W.Some(l), devices, now).data.Valid?
    ensures ValidateReply(ValidateRequest(key, deviceId), W.Some(l), devices, now).data.activation.canActivate <==>
      !ActivateStepOf(ActivateRequest(key, deviceId, name), W.Some(l), devices, now).Refuse?
  {
  }

  // ---------- Deactivate ----------

  datatype DeactivateRequest = DeactivateRequest(licenseKey: string, deviceId: string)

  datatype DeactivateData = DeactivateData(message: string, activation: Usage)

  /** The deactivate route: removes that device, present or not, and reports the count read back afterwards. */
  method Deactivate(store: Store, req: DeactivateRequest) returns (r: Response<DeactivateData>)
    modifies store`activations
    ensures req.licenseKey == "" || req.deviceId == "" ==>
      r == ErrorResponse("license_key and device_id are required") && store.activations == old(store.activations)
    ensures req.licenseKey != "" && req.deviceId != "" && store.LicenseByKey(req.licenseKey).None? ==>
      r == ErrorResponse("License not found", 404) && store.activations == old(store.activations)
    ensures req.licenseKey != "" && req.deviceId != "" && store.LicenseByKey(req.licenseKey).Some? ==>
      var l := store.LicenseByKey(req.licenseKey).value;
      store.activations == old(store.activations) - {(l.id, req.deviceId)}
      && r == SuccessResponse(DeactivateData("Device deactivated", Usage(store.ActivationCount(l.id), l.maxActivations)))
  {
    if req.licenseKey == "" || req.deviceId == "" {
      return ErrorResponse("license_key and device_id are required");
    }
    var found := store.LicenseByKey(req.licenseKey);
    if found.None? {
      return ErrorResponse("License not found", 404);
    }
    var l := found.value;
    store.RemoveActivation(l.id, req.deviceId);
    r := SuccessResponse(DeactivateData("Device deactivated", Usage(store.ActivationCount(l.id), l.maxActivations)));
  }

  /**
   * After deactivation the device is gone from the licence's set, the other
   * licences keep theirs, and the count drops by one exactly when it was there.
   */
  lemma DeactivateOutcome(acts: map<(nat, string), Activation>, licenseId: nat, deviceId: string, other: nat)
    ensures deviceId !in DevicesOf(acts - {(licenseId, deviceId)}, licenseId)
    ensures |DevicesOf(acts - {(licenseId, deviceId)}, licenseId)|
      == |DevicesOf(acts, licenseId)| - (if deviceId in DevicesOf(acts, licenseId) then 1 else 0)
    ensures other != licenseId ==> DevicesOf(acts - {(licenseId, deviceId)}, other) == DevicesOf(acts, other)
  {
    RemoveDevice(acts, licenseId, deviceId, other);
    RemoveDevice(acts, licenseId, deviceId, licenseId);
  }
}
