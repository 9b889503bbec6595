/**
 * The mobile trust protocol as a transition system: the records that the in-memory
 * repository keeps about devices and credentials, and each operation as a function
 * from the state before to the state after and the answer given.
 */
module TrustModel {
  import opened Common

  // ---------------------------------------------------------------- records

  datatype CredentialType = Bootstrap | Session

  datatype Lifecycle = Pending | Active | Consumed | Revoked

  /** The direction in which a credential may move. */
  function Rank(l: Lifecycle): nat {
    match l
    case Pending => 0
    case Active => 1
    case Consumed => 2
    case Revoked => 3
  }

  datatype Mode = AndroidCallLog | SyntheticDemo

  datatype OrganizationStatus = OrgTrial | OrgActive | OrgPastDue | OrgSuspended | OrgClosed

  datatype EmployeeStatus = Invited | Working | Paused | Deactivated

  datatype DeviceStatus = DevicePending | DeviceConnected | DeviceStale | DeviceRevoked

  datatype Employee = Employee(organizationId: Id, status: EmployeeStatus, deviceIds: seq<Id>)

  datatype User = User(organizationId: Id, active: bool)

  datatype Device = Device(
    organizationId: Id, employeeId: Id, installationId: Id,
    status: DeviceStatus, permissions: Id, revokedAt: Option<Time>)

  datatype Credential = Credential(
    id: Id, credentialType: CredentialType, lifecycle: Lifecycle,
    organizationId: Id, employeeId: Id, deviceId: Id,
    requestId: Id, rotatedFrom: Option<Id>, expiresAt: Time,
    consumedAt: Option<Time>, revokedAt: Option<Time>)

  datatype Consent = Consent(
    policyId: Id, policyHash: Id, permissions: Id,
    acceptedAt: Time, recordedAt: Time, withdrawnAt: Option<Time>)

  datatype Policy = Policy(id: Id, contentHash: Id)

  datatype PairingCode = PairingCode(
    organizationId: Id, employeeId: Id, mode: Mode, expiresAt: Time,
    consumedAt: Option<Time>, revokedAt: Option<Time>)

  datatype Operation = OpActivate | OpReconsent | OpPrepare | OpConfirm | OpRevoke

  /** What a completed operation answered; stored in the ledger and given again on replay. */
  datatype Response =
    | Activated(device: Device, sessionExpiresAt: Time, policy: Policy)
    | Reconsented(device: Device, policy: Policy, consentedAt: Time)
    | Prepared(requestId: Id, pendingExpiresAt: Time, preparedAt: Time)
    | Confirmed(requestId: Id, expiresAt: Time, activatedAt: Time)
    | SessionRevoked(deviceId: Id, revokedAt: Time, consentWithdrawnAt: Time)

  /** A ledger entry, stored under (device, operation, request). */
  datatype Entry = Entry(credentialId: Id, fingerprint: Id, proposedHash: Option<Id>, response: Response)

  datatype RedemptionOutcome =
    | Redeemed(deviceId: Id, device: Device, bootstrapExpiresAt: Time, replayed: bool)
    | NotFound
    | CodeRevoked
    | CodeConsumed
    | CodeExpired
    | InstallationConflict
    | PairingRequestConflict

  datatype Redemption = Redemption(codeHash: Id, fingerprint: Id, result: RedemptionOutcome)

  datatype AdminResult = AdminResult(
    deviceId: Id, employeeId: Id, revokedAt: Time, reason: Id,
    revokedCredentialCount: nat, consentWithdrawn: bool)

  datatype AdminRevocation = AdminRevocation(deviceId: Id, actorUserId: Id, fingerprint: Id, result: AdminResult)

  datatype AuditEvent = AuditEvent(id: Id, actorUserId: Id, requestId: Id, deviceId: Id, result: AdminResult)

  datatype OutboxEvent = OutboxEvent(organizationId: Id, requestId: Id, deviceId: Id)

  datatype State = State(
    organizations: map<Id, OrganizationStatus>,
    users: map<Id, User>,
    employees: map<Id, Employee>,
    devices: map<Id, Device>,
    devicesByInstallation: map<(Id, Id), Id>,
    modes: map<Id, Mode>,
    policies: map<Mode, Policy>,
    pairingCodes: map<Id, PairingCode>,
    pairingIdByHash: map<Id, Id>,
    credentials: map<Id, Credential>,
    hashById: map<Id, Id>,
    consents: map<Id, Consent>,
    ledger: map<(Id, Operation, Id), Entry>,
    redemptions: map<Id, Redemption>,
    adminRevocations: map<(Id, Id), AdminRevocation>,
    audits: map<Id, seq<AuditEvent>>,
    outbox: map<Id, OutboxEvent>)

  // ---------------------------------------------------------------- inputs

  /** What authentication says about the caller of a mobile operation. */
  datatype Context = Context(
    credentialId: Id, credentialType: CredentialType,
    organizationId: Id, employeeId: Id, deviceId: Id, installationId: Id,
    mode: Mode, permissions: Id, lifecycle: Lifecycle, consentCurrent: bool)

  /** A credential proposed by the client; `hexHash` is the test for 64 hexadecimal digits. */
  datatype NewCredential = NewCredential(
    id: Id, tokenHash: Id, hexHash: bool, credentialType: CredentialType, lifecycle: Lifecycle,
    expiresAt: Time, requestId: Id, rotatedFrom: Option<Id>)

  datatype RedeemInput = RedeemInput(
    codeHash: Id, installationId: Id, mode: Mode, permissions: Id,
    bootstrap: NewCredential, requestId: Id, fingerprint: Id, newDeviceId: Id)

  /** A consent given on the device: the policy it names, and when it was accepted. */
  datatype ConsentInput = ConsentInput(
    requestId: Id, policy: Policy, acceptedAt: Time, permissions: Id)

  datatype AdminInput = AdminInput(
    organizationId: Id, deviceId: Id, actorUserId: Id, requestId: Id, fingerprint: Id,
    reason: Id, auditEventId: Id, outboxEventId: Id)

  /** The answer of a mobile operation: `NoMatch` is the source's `undefined`. */
  datatype Outcome = Reply(response: Response, replayed: bool) | NoMatch | Conflict | ConsentRequired

  datatype AdminOutcome = AdminReply(result: AdminResult, replayed: bool) | AdminNoMatch | AdminConflict | AdminFault

  // ---------------------------------------------------------------- reading the state

  /** A credential that can still be used: active, and neither revoked nor consumed. */
  predicate Usable(c: Credential) {
    c.lifecycle == Active && c.revokedAt.None? && c.consumedAt.None?
  }

  predicate InService(s: State, organizationId: Id) {
    organizationId in s.organizations && s.organizations[organizationId] in {OrgTrial, OrgActive}
  }

  /** The credential matches the identity in the context (the search predicate of the source). */
  predicate MatchesContext(c: Credential, ctx: Context, t: CredentialType) {
    c.id == ctx.credentialId && c.credentialType == t && c.organizationId == ctx.organizationId &&
    c.employeeId == ctx.employeeId && c.deviceId == ctx.deviceId
  }

  /** The checks on organization, employee, device, collection mode and consent. */
  predicate TrustChecks(s: State, ctx: Context, t: CredentialType) {
    && InService(s, ctx.organizationId)
    && ctx.employeeId in s.employees && s.employees[ctx.employeeId].organizationId == ctx.organizationId
    && ctx.deviceId in s.devices
    && var device := s.devices[ctx.deviceId];
       var employee := s.employees[ctx.employeeId];
       && device.organizationId == ctx.organizationId && device.employeeId == ctx.employeeId
       && device.installationId == ctx.installationId
       && ctx.deviceId in s.modes && s.modes[ctx.deviceId] == ctx.mode
       && if t == Bootstrap then
            device.status == DevicePending && employee.status in {Invited, Working} && ctx.deviceId !in s.consents
          else
            device.status == DeviceConnected && employee.status == Working &&
            ctx.deviceId in s.consents && s.consents[ctx.deviceId].withdrawnAt.None?
  }

  /** The hash under which the current credential of a context is stored, if it passes every check. */
  function FindCurrent(s: State, ctx: Context, t: CredentialType, at: Time): Option<Id> {
    if ctx.credentialType != t then None
    else if ctx.credentialId !in s.hashById then None
    else
      var h := s.hashById[ctx.credentialId];
      if h !in s.credentials || !MatchesContext(s.credentials[h], ctx, t) then None
      else if !Usable(s.credentials[h]) || s.credentials[h].expiresAt <= at then None
      else if TrustChecks(s, ctx, t) then Some(h) else None
  }

  predicate ConsentCurrent(s: State, deviceId: Id) {
    deviceId in s.consents && s.consents[deviceId].withdrawnAt.None? &&
    deviceId in s.modes && s.modes[deviceId] in s.policies &&
    var policy := s.policies[s.modes[deviceId]];
    s.consents[deviceId].policyId == policy.id && s.consents[deviceId].policyHash == policy.contentHash
  }

  function ContextFor(s: State, c: Credential): Option<Context> {
    if c.deviceId in s.devices && c.deviceId in s.modes then
      var device := s.devices[c.deviceId];
      Some(Context(c.id, c.credentialType, c.organizationId, c.employeeId, c.deviceId, device.installationId,
                   s.modes[c.deviceId], device.permissions, c.lifecycle, ConsentCurrent(s, c.deviceId)))
    else None
  }

  function ResolveCredential(s: State, h: Id, t: CredentialType, at: Time): Option<Context> {
    if h !in s.credentials || s.credentials[h].credentialType != t then None
    else
      var ctx := ContextFor(s, s.credentials[h]);
      if ctx.Some? && FindCurrent(s, ctx.value, t, at).Some? then ctx else None
  }

  function ReplayLifecycle(op: Operation): Lifecycle {
    match op
    case OpActivate => Consumed
    case OpRevoke => Revoked
    case _ => Active
  }

  function ResolveReplay(s: State, h: Id, t: CredentialType, op: Operation, requestId: Id, fingerprint: Id)
    : Option<Context>
  {
    if h !in s.credentials || s.credentials[h].credentialType != t then None
    else
      var c := s.credentials[h];
      var key := (c.deviceId, op, requestId);
      if c.lifecycle != ReplayLifecycle(op) || key !in s.ledger then None
      else if s.ledger[key].credentialId != c.id || s.ledger[key].fingerprint != fingerprint then None
      else ContextFor(s, c)
  }

  function ResolvePending(s: State, h: Id, prepareRequestId: Id, at: Time): Option<Context> {
    if h !in s.credentials then None
    else
      var c := s.credentials[h];
      if c.credentialType != Session || c.lifecycle != Pending || c.requestId != prepareRequestId || c.expiresAt <= at
      then None
      else
        var key := (c.deviceId, OpPrepare, prepareRequestId);
        if key !in s.ledger || s.ledger[key].proposedHash != Some(h) then None else ContextFor(s, c)
  }

  // ---------------------------------------------------------------- credential sweeps

  /** Redeeming and self-revocation revoke every credential of the device not yet marked revoked. */
  function RevokeAll(credentials: map<Id, Credential>, deviceId: Id, at: Time): map<Id, Credential> {
    map h | h in credentials :: RevokeOne(credentials[h], deviceId, at)
  }

  function RevokeOne(c: Credential, deviceId: Id, at: Time): Credential {
    if c.deviceId == deviceId && c.revokedAt.None? then c.(revokedAt := Some(at), lifecycle := Revoked) else c
  }

  predicate AdminTarget(c: Credential, deviceId: Id) {
    c.deviceId == deviceId && (c.lifecycle == Active || c.lifecycle == Pending)
  }

  /** An administrator's revocation leaves consumed credentials as they are. */
  function AdminRevokeAll(credentials: map<Id, Credential>, deviceId: Id, at: Time): map<Id, Credential> {
    map h | h in credentials :: AdminRevokeOne(credentials[h], deviceId, at)
  }

  function AdminRevokeOne(c: Credential, deviceId: Id, at: Time): Credential {
    if AdminTarget(c, deviceId) then c.(revokedAt := Some(at), lifecycle := Revoked) else c
  }

  function AdminTargets(credentials: map<Id, Credential>, deviceId: Id): set<Id> {
    set h | h in credentials && AdminTarget(credentials[h], deviceId)
  }

  /** Suspension stamps the revocation time but leaves the lifecycle state alone. */
  function FreezeAll(credentials: map<Id, Credential>, deviceIds: set<Id>, at: Time): map<Id, Credential> {
    map h | h in credentials ::
      if credentials[h].deviceId in deviceIds && credentials[h].revokedAt.None?
      then credentials[h].(revokedAt := Some(at)) else credentials[h]
  }

  function StoredCredential(n: NewCredential, organizationId: Id, employeeId: Id, deviceId: Id): Credential {
    Credential(n.id, n.credentialType, n.lifecycle, organizationId, employeeId, deviceId,
               n.requestId, n.rotatedFrom, n.expiresAt, None, None)
  }

  // ---------------------------------------------------------------- pairing

  predicate CodeKnown(s: State, codeHash: Id) {
    codeHash in s.pairingIdByHash && s.pairingIdByHash[codeHash] in s.pairingCodes
  }

  function CodeOf(s: State, codeHash: Id): PairingCode
    requires CodeKnown(s, codeHash)
  {
    s.pairingCodes[s.pairingIdByHash[codeHash]]
  }

  /** The refusals of a redemption, in the order in which the source tests them. */
  function RedeemRefusal(s: State, r: RedeemInput, at: Time): Option<RedemptionOutcome> {
    if !CodeKnown(s, r.codeHash) then Some(NotFound)
    else
      var code := CodeOf(s, r.codeHash);
      if code.revokedAt.Some? then Some(CodeRevoked)
      else if code.consumedAt.Some? then Some(CodeConsumed)
      else if code.expiresAt <= at then Some(CodeExpired)
      else if code.employeeId !in s.employees then Some(NotFound)
      else if s.employees[code.employeeId].organizationId != code.organizationId ||
              s.employees[code.employeeId].status in {Paused, Deactivated} then Some(NotFound)
      else if code.mode != r.mode then Some(NotFound)
      else
        var existing := ExistingDevice(s, code.organizationId, r.installationId);
        if existing.Some? && s.devices[existing.value].employeeId != code.employeeId then Some(InstallationConflict)
        else None
  }

  function ExistingDevice(s: State, organizationId: Id, installationId: Id): (d: Option<Id>)
    ensures d.Some? ==> d.value in s.devices
  {
    var key := (organizationId, installationId);
    if key in s.devicesByInstallation && s.devicesByInstallation[key] in s.devices
    then Some(s.devicesByInstallation[key]) else None
  }

  /** The device that a redemption pairs: the one registered for the installation, or a new one. */
  function RedeemDevice(s: State, r: RedeemInput, organizationId: Id): Id {
    var existing := ExistingDevice(s, organizationId, r.installationId);
    if existing.Some? then existing.value else r.newDeviceId
  }

  function PairedDevice(s: State, r: RedeemInput, code: PairingCode): Device {
    var existing := ExistingDevice(s, code.organizationId, r.installationId);
    if existing.Some? then
      s.devices[existing.value].(status := DevicePending, permissions := r.permissions, revokedAt := None)
    else
      Device(code.organizationId, code.employeeId, r.installationId, DevicePending, r.permissions, None)
  }

  /** The credentials after a redemption: the device's earlier ones revoked, the bootstrap credential stored. */
  function PairedCredentials(s: State, r: RedeemInput, code: PairingCode, at: Time): map<Id, Credential> {
    var d := RedeemDevice(s, r, code.organizationId);
    var swept := if ExistingDevice(s, code.organizationId, r.installationId).Some?
                 then RevokeAll(s.credentials, d, at) else s.credentials;
    swept[r.bootstrap.tokenHash := StoredCredential(r.bootstrap, code.organizationId, code.employeeId, d)]
  }

  function AddDevice(employee: Employee, d: Id): Employee {
    if d in employee.deviceIds then employee else employee.(deviceIds := employee.deviceIds + [d])
  }

  /** A redemption that passed every test. */
  function PairEffect(s: State, r: RedeemInput, at: Time): State
    requires CodeKnown(s, r.codeHash) && CodeOf(s, r.codeHash).employeeId in s.employees
  {
    var code := CodeOf(s, r.codeHash);
    var d := RedeemDevice(s, r, code.organizationId);
    var device := PairedDevice(s, r, code);
    s.(pairingCodes := s.pairingCodes[s.pairingIdByHash[r.codeHash] := code.(consumedAt := Some(at))],
       devices := s.devices[d := device],
       modes := s.modes[d := code.mode],
       devicesByInstallation := s.devicesByInstallation[(code.organizationId, r.installationId) := d],
       employees := s.employees[code.employeeId := AddDevice(s.employees[code.employeeId], d)],
       consents := if ExistingDevice(s, code.organizationId, r.installationId).Some?
                   then s.consents - {d} else s.consents,
       credentials := PairedCredentials(s, r, code, at),
       hashById := s.hashById[r.bootstrap.id := r.bootstrap.tokenHash],
       redemptions := s.redemptions[r.requestId := Redemption(r.codeHash, r.fingerprint,
         Redeemed(d, device, r.bootstrap.expiresAt, false))])
  }

  /** The redemption is neither answered from its record nor refused. */
  predicate NewPairing(s: State, r: RedeemInput, at: Time) {
    r.requestId !in s.redemptions && RedeemRefusal(s, r, at).None?
  }

  /** What the server fills into a redemption: an active bootstrap credential and unused identifiers. */
  predicate Proposed(s: State, r: RedeemInput) {
    r.bootstrap.credentialType == Bootstrap && r.bootstrap.lifecycle == Active &&
    r.bootstrap.id !in s.hashById && r.newDeviceId !in s.devices
  }

  function Redeem(s: State, r: RedeemInput, at: Time): (State, RedemptionOutcome) {
    if r.requestId in s.redemptions then
      var prior := s.redemptions[r.requestId];
      if prior.codeHash != r.codeHash || prior.fingerprint != r.fingerprint || !prior.result.Redeemed? ||
         prior.result.device.installationId != r.installationId
      then (s, PairingRequestConflict)
      else (s, prior.result.(replayed := true))
    else
      var refusal := RedeemRefusal(s, r, at);
      if refusal.Some? then (s, refusal.value)
      else
        var code := CodeOf(s, r.codeHash);
        (PairEffect(s, r, at),
         Redeemed(RedeemDevice(s, r, code.organizationId), PairedDevice(s, r, code), r.bootstrap.expiresAt, false))
  }

  // ---------------------------------------------------------------- mobile operations

  const CLOCK_AHEAD: Time := 5 * 60 * 1000
  const CLOCK_BEHIND: Time := 15 * 60 * 1000

  /** Consent must name the policy in force, and must not be stale. */
  predicate ConsentAcceptable(s: State, ctx: Context, c: ConsentInput, policy: Option<Policy>, at: Time) {
    && at - CLOCK_BEHIND <= c.acceptedAt <= at + CLOCK_AHEAD
    && ctx.mode in s.policies && policy == Some(s.policies[ctx.mode]) && c.policy == s.policies[ctx.mode]
  }

  function NewConsent(policy: Policy, c: ConsentInput, at: Time): Consent {
    Consent(policy.id, policy.contentHash, c.permissions, c.acceptedAt, at, None)
  }

  /** The device as it stands once it is active. */
  function ActiveDevice(s: State, ctx: Context, c: ConsentInput): Device
    requires ctx.deviceId in s.devices
  {
    s.devices[ctx.deviceId].(status := DeviceConnected, permissions := c.permissions)
  }

  /** Activation consumes the bootstrap credential stored under `b` and issues a session. */
  function ActivateEffect(s: State, ctx: Context, b: Id, c: ConsentInput, n: NewCredential, fingerprint: Id,
                          at: Time): State
    requires b in s.credentials && ctx.deviceId in s.devices && ctx.employeeId in s.employees && ctx.mode in s.policies
  {
    var policy := s.policies[ctx.mode];
    var device := ActiveDevice(s, ctx, c);
    s.(credentials := s.credentials[b := s.credentials[b].(consumedAt := Some(at), lifecycle := Consumed)]
                                   [n.tokenHash :=
                                     StoredCredential(n, ctx.organizationId, ctx.employeeId, ctx.deviceId)],
       hashById := s.hashById[n.id := n.tokenHash],
       consents := s.consents[ctx.deviceId := NewConsent(policy, c, at)],
       devices := s.devices[ctx.deviceId := device],
       employees := s.employees[ctx.employeeId := s.employees[ctx.employeeId].(status := Working)],
       ledger := s.ledger[(ctx.deviceId, OpActivate, c.requestId) :=
         Entry(s.credentials[b].id, fingerprint, Some(n.tokenHash), Activated(device, n.expiresAt, policy))])
  }

  function Activate(s: State, ctx: Context, c: ConsentInput, n: NewCredential, fingerprint: Id,
                    policy: Option<Policy>, at: Time): (State, Outcome)
  {
    var key := (ctx.deviceId, OpActivate, c.requestId);
    if key in s.ledger then
      var prior := s.ledger[key];
      if prior.credentialId != ctx.credentialId || prior.fingerprint != fingerprint ||
         prior.proposedHash != Some(n.tokenHash)
      then (s, Conflict) else (s, Reply(prior.response, true))
    else
      var current := FindCurrent(s, ctx, Bootstrap, at);
      if current.None? || n.credentialType != Session || n.lifecycle != Active || n.requestId != c.requestId ||
         !n.hexHash || n.tokenHash in s.credentials
      then (s, NoMatch)
      else if !ConsentAcceptable(s, ctx, c, policy, at) then (s, ConsentRequired)
      else
        (ActivateEffect(s, ctx, current.value, c, n, fingerprint, at),
         Reply(Activated(ActiveDevice(s, ctx, c), n.expiresAt, s.policies[ctx.mode]), false))
  }

  /** Renewed consent replaces the receipt in force. */
  function ReconsentEffect(s: State, ctx: Context, c: ConsentInput, fingerprint: Id, at: Time): State
    requires ctx.deviceId in s.devices && ctx.mode in s.policies
  {
    var policy := s.policies[ctx.mode];
    var device := s.devices[ctx.deviceId].(permissions := c.permissions);
    s.(consents := s.consents[ctx.deviceId := NewConsent(policy, c, at)],
       devices := s.devices[ctx.deviceId := device],
       ledger := s.ledger[(ctx.deviceId, OpReconsent, c.requestId) :=
         Entry(ctx.credentialId, fingerprint, None, Reconsented(device, policy, c.acceptedAt))])
  }

  function Reconsent(s: State, ctx: Context, c: ConsentInput, fingerprint: Id, policy: Option<Policy>, at: Time)
    : (State, Outcome)
  {
    var key := (ctx.deviceId, OpReconsent, c.requestId);
    if key in s.ledger then
      var prior := s.ledger[key];
      if prior.credentialId != ctx.credentialId || prior.fingerprint != fingerprint
      then (s, Conflict) else (s, Reply(prior.response, true))
    else if FindCurrent(s, ctx, Session, at).None? then (s, NoMatch)
    else if !ConsentAcceptable(s, ctx, c, policy, at) then (s, ConsentRequired)
    else
      (ReconsentEffect(s, ctx, c, fingerprint, at),
       Reply(Reconsented(s.devices[ctx.deviceId].(permissions := c.permissions), s.policies[ctx.mode], c.acceptedAt),
             false))
  }

  /** Preparing a rotation stores the proposed credential as pending; the session goes on. */
  function PrepareEffect(s: State, ctx: Context, n: NewCredential, requestId: Id, fingerprint: Id, at: Time): State {
    s.(credentials := s.credentials[n.tokenHash :=
         StoredCredential(n, ctx.organizationId, ctx.employeeId, ctx.deviceId)],
       hashById := s.hashById[n.id := n.tokenHash],
       ledger := s.ledger[(ctx.deviceId, OpPrepare, requestId) :=
         Entry(ctx.credentialId, fingerprint, Some(n.tokenHash), Prepared(requestId, n.expiresAt, at))])
  }

  function Prepare(s: State, ctx: Context, n: NewCredential, requestId: Id, fingerprint: Id, at: Time)
    : (State, Outcome)
  {
    var key := (ctx.deviceId, OpPrepare, requestId);
    if key in s.ledger then
      var prior := s.ledger[key];
      if prior.credentialId != ctx.credentialId || prior.fingerprint != fingerprint ||
         prior.proposedHash != Some(n.tokenHash)
      then (s, Conflict) else (s, Reply(prior.response, true))
    else if FindCurrent(s, ctx, Session, at).None? || n.credentialType != Session || n.lifecycle != Pending ||
            n.requestId != requestId || n.rotatedFrom != Some(ctx.credentialId) || !n.hexHash ||
            n.tokenHash in s.credentials
    then (s, NoMatch)
    else if !ConsentCurrent(s, ctx.deviceId) then (s, ConsentRequired)
    else (PrepareEffect(s, ctx, n, requestId, fingerprint, at), Reply(Prepared(requestId, n.expiresAt, at), false))
  }

  /** The pending credential and the session it replaces, when the confirmation is in order. */
  function Rotation(s: State, ctx: Context, prepareRequestId: Id, at: Time): (r: Option<(Id, Id)>)
    ensures r.Some? ==> r.value.0 in s.credentials && r.value.1 in s.credentials
  {
    if ctx.credentialId !in s.hashById || s.hashById[ctx.credentialId] !in s.credentials then None
    else
      var pendingHash := s.hashById[ctx.credentialId];
      var pending := s.credentials[pendingHash];
      if pending.lifecycle != Pending || pending.requestId != prepareRequestId || pending.rotatedFrom.None? ||
         pending.expiresAt <= at
      then None
      else
        var key := (ctx.deviceId, OpPrepare, prepareRequestId);
        var sourceId := pending.rotatedFrom.value;
        if key !in s.ledger || s.ledger[key].proposedHash != Some(pendingHash) then None
        else if sourceId !in s.hashById || s.hashById[sourceId] !in s.credentials then None
        else
          var source := s.credentials[s.hashById[sourceId]];
          if source.lifecycle != Active || source.revokedAt.Some? then None
          else Some((pendingHash, s.hashById[sourceId]))
  }

  /** Confirmation activates the credential under `p` and revokes the session under `o`. */
  function ConfirmEffect(s: State, deviceId: Id, p: Id, o: Id, requestId: Id, fingerprint: Id, at: Time): State
    requires p in s.credentials && o in s.credentials
  {
    s.(credentials := s.credentials[p := s.credentials[p].(lifecycle := Active)]
                                   [o := s.credentials[o].(lifecycle := Revoked, revokedAt := Some(at))],
       ledger := s.ledger[(deviceId, OpConfirm, requestId) :=
         Entry(s.credentials[p].id, fingerprint, Some(p), Confirmed(requestId, s.credentials[p].expiresAt, at))])
  }

  function Confirm(s: State, ctx: Context, requestId: Id, prepareRequestId: Id, fingerprint: Id, at: Time)
    : (State, Outcome)
  {
    var key := (ctx.deviceId, OpConfirm, requestId);
    if key in s.ledger then
      var prior := s.ledger[key];
      if prior.credentialId != ctx.credentialId || prior.fingerprint != fingerprint
      then (s, Conflict) else (s, Reply(prior.response, true))
    else
      var rotation := Rotation(s, ctx, prepareRequestId, at);
      if rotation.None? then (s, NoMatch)
      else
        var (p, o) := rotation.value;
        (ConfirmEffect(s, ctx.deviceId, p, o, requestId, fingerprint, at),
         Reply(Confirmed(requestId, s.credentials[p].expiresAt, at), false))
  }

  /** Self-revocation takes the device and all its credentials out of use and withdraws consent. */
  function SelfRevokeEffect(s: State, ctx: Context, requestId: Id, fingerprint: Id, at: Time): State
    requires ctx.deviceId in s.devices && ctx.deviceId in s.consents
  {
    s.(credentials := RevokeAll(s.credentials, ctx.deviceId, at),
       consents := s.consents[ctx.deviceId := s.consents[ctx.deviceId].(withdrawnAt := Some(at))],
       devices := s.devices[ctx.deviceId := s.devices[ctx.deviceId].(status := DeviceRevoked, revokedAt := Some(at))],
       ledger := s.ledger[(ctx.deviceId, OpRevoke, requestId) :=
         Entry(ctx.credentialId, fingerprint, None, SessionRevoked(ctx.deviceId, at, at))])
  }

  function SelfRevoke(s: State, ctx: Context, requestId: Id, fingerprint: Id, at: Time): (State, Outcome) {
    var key := (ctx.deviceId, OpRevoke, requestId);
    if key in s.ledger then
      var prior := s.ledger[key];
      if prior.credentialId != ctx.credentialId || prior.fingerprint != fingerprint
      then (s, Conflict) else (s, Reply(prior.response, true))
    else if FindCurrent(s, ctx, Session, at).None? then (s, NoMatch)
    else (SelfRevokeEffect(s, ctx, requestId, fingerprint, at), Reply(SessionRevoked(ctx.deviceId, at, at), false))
  }

  // ---------------------------------------------------------------- administration

  predicate ConsentInForce(s: State, deviceId: Id) {
    deviceId in s.consents && s.consents[deviceId].withdrawnAt.None?
  }

  function AdminRevokeResult(s: State, a: AdminInput, at: Time): AdminResult
    requires a.deviceId in s.devices
  {
    AdminResult(a.deviceId, s.devices[a.deviceId].employeeId, at, a.reason,
                |AdminTargets(s.credentials, a.deviceId)|, ConsentInForce(s, a.deviceId))
  }

  function AdminRevokeEffect(s: State, a: AdminInput, at: Time): State
    requires a.deviceId in s.devices && a.organizationId in s.audits
  {
    var result := AdminRevokeResult(s, a, at);
    s.(credentials := AdminRevokeAll(s.credentials, a.deviceId, at),
       consents := if ConsentInForce(s, a.deviceId)
                   then s.consents[a.deviceId := s.consents[a.deviceId].(withdrawnAt := Some(at))] else s.consents,
       devices := s.devices[a.deviceId := s.devices[a.deviceId].(status := DeviceRevoked, revokedAt := Some(at))],
       audits := s.audits[a.organizationId := s.audits[a.organizationId] +
         [AuditEvent(a.auditEventId, a.actorUserId, a.requestId, a.deviceId, result)]],
       outbox := s.outbox[a.outboxEventId := OutboxEvent(a.organizationId, a.requestId, a.deviceId)],
       adminRevocations := s.adminRevocations[(a.organizationId, a.requestId) :=
         AdminRevocation(a.deviceId, a.actorUserId, a.fingerprint, result)])
  }

  function AdminRevoke(s: State, a: AdminInput, at: Time): (State, AdminOutcome) {
    var key := (a.organizationId, a.requestId);
    if key in s.adminRevocations then
      var prior := s.adminRevocations[key];
      if prior.deviceId != a.deviceId || prior.actorUserId != a.actorUserId || prior.fingerprint != a.fingerprint
      then (s, AdminConflict) else (s, AdminReply(prior.result, true))
    else if a.deviceId !in s.devices || s.devices[a.deviceId].organizationId != a.organizationId then (s, AdminNoMatch)
    else if s.devices[a.deviceId].status == DeviceRevoked || s.devices[a.deviceId].revokedAt.Some?
    then (s, AdminConflict)
    else if a.actorUserId !in s.users || s.users[a.actorUserId].organizationId != a.organizationId ||
            !s.users[a.actorUserId].active
    then (s, AdminNoMatch)
    else if a.organizationId !in s.audits then (s, AdminFault)
    else if (exists e :: e in s.audits[a.organizationId] && e.id == a.auditEventId) || a.outboxEventId in s.outbox
    then (s, AdminFault)
    else (AdminRevokeEffect(s, a, at), AdminReply(AdminRevokeResult(s, a, at), false))
  }

  /** The devices that suspending an employee reaches. */
  function SuspendedDevices(s: State, organizationId: Id, employeeId: Id): set<Id>
    requires employeeId in s.employees
  {
    set d | d in s.devices && d in s.employees[employeeId].deviceIds && s.devices[d].organizationId == organizationId
  }

  function SuspendEffect(s: State, organizationId: Id, employeeId: Id, at: Time): State
    requires employeeId in s.employees
  {
    var reached := SuspendedDevices(s, organizationId, employeeId);
    s.(employees := s.employees[employeeId := s.employees[employeeId].(status := Paused)],
       devices := map d | d in s.devices ::
         if d in reached then s.devices[d].(status := DeviceRevoked, revokedAt := Some(at)) else s.devices[d],
       credentials := FreezeAll(s.credentials, reached, at))
  }

  function Suspend(s: State, organizationId: Id, employeeId: Id, at: Time): (State, bool) {
    if employeeId !in s.employees || s.employees[employeeId].organizationId != organizationId then (s, false)
    else (SuspendEffect(s, organizationId, employeeId, at), true)
  }

  function CreateEmployee(s: State, id: Id, organizationId: Id): State {
    s.(employees := s.employees[id := Employee(organizationId, Invited, [])])
  }

  function CreatePairingCode(s: State, id: Id, codeHash: Id, code: PairingCode): State {
    s.(pairingCodes := s.pairingCodes[id := code], pairingIdByHash := s.pairingIdByHash[codeHash := id])
  }

  function RevokePairingCode(s: State, organizationId: Id, id: Id, at: Time): State {
    if id !in s.pairingCodes || s.pairingCodes[id].organizationId != organizationId ||
       s.pairingCodes[id].consumedAt.Some? || s.pairingCodes[id].revokedAt.Some?
    then s
    else s.(pairingCodes := s.pairingCodes[id := s.pairingCodes[id].(revokedAt := Some(at))])
  }

  function PublishPolicy(s: State, mode: Mode, policy: Policy): State {
    s.(policies := s.policies[mode := policy])
  }

  // ---------------------------------------------------------------- steps

  datatype Op =
    | DoRedeem(r: RedeemInput, at: Time)
    | DoActivate(ctx: Context, consent: ConsentInput, credential: NewCredential, fingerprint: Id,
                 policy: Option<Policy>, at: Time)
    | DoReconsent(ctx: Context, consent: ConsentInput, fingerprint: Id, policy: Option<Policy>, at: Time)
    | DoPrepare(ctx: Context, credential: NewCredential, requestId: Id, fingerprint: Id, at: Time)
    | DoConfirm(ctx: Context, requestId: Id, prepareRequestId: Id, fingerprint: Id, at: Time)
    | DoSelfRevoke(ctx: Context, requestId: Id, fingerprint: Id, at: Time)
    | DoAdminRevoke(admin: AdminInput, at: Time)
    | DoSuspend(organizationId: Id, employeeId: Id, at: Time)
    | DoCreateEmployee(newEmployeeId: Id, organizationId: Id)
    | DoCreateCode(codeId: Id, codeHash: Id, code: PairingCode)
    | DoRevokeCode(organizationId: Id, codeId: Id, at: Time)
    | DoPublishPolicy(mode: Mode, newPolicy: Policy)

  function Step(s: State, op: Op): State {
    match op
    case DoRedeem(r, at) => Redeem(s, r, at).0
    case DoActivate(ctx, c, n, f, p, at) => Activate(s, ctx, c, n, f, p, at).0
    case DoReconsent(ctx, c, f, p, at) => Reconsent(s, ctx, c, f, p, at).0
    case DoPrepare(ctx, n, rid, f, at) => Prepare(s, ctx, n, rid, f, at).0
    case DoConfirm(ctx, rid, prid, f, at) => Confirm(s, ctx, rid, prid, f, at).0
    case DoSelfRevoke(ctx, rid, f, at) => SelfRevoke(s, ctx, rid, f, at).0
    case DoAdminRevoke(a, at) => AdminRevoke(s, a, at).0
    case DoSuspend(o, e, at) => Suspend(s, o, e, at).0
    case DoCreateEmployee(id, o) => CreateEmployee(s, id, o)
    case DoCreateCode(id, h, code) => CreatePairingCode(s, id, h, code)
    case DoRevokeCode(o, id, at) => RevokePairingCode(s, o, id, at)
    case DoPublishPolicy(m, p) => PublishPolicy(s, m, p)
  }

  /**
   * What the callers supply: identifiers come unused from the id generator, and a request that pairs a
   * device proposes an active bootstrap credential whose hash is not yet stored (the one freshness test
   * that the source itself does not make). A redemption that is answered from its record, or refused,
   * may repeat any hash.
   */
  predicate Fresh(s: State, op: Op) {
    match op
    case DoRedeem(r, at) => NewPairing(s, r, at) ==> Proposed(s, r) && r.bootstrap.tokenHash !in s.credentials
    case DoActivate(_, _, n, _, _, _) => n.id !in s.hashById
    case DoPrepare(_, n, _, _, _) => n.id !in s.hashById
    case DoCreateEmployee(id, _) => id !in s.employees
    case _ => true
  }

  /** The state after a run of operations. */
  function Run(s: State, ops: seq<Op>): State
    decreases |ops|
  {
    if ops == [] then s else Run(Step(s, ops[0]), ops[1..])
  }

  ghost predicate LegalRun(s: State, ops: seq<Op>)
    decreases |ops|
  {
    ops != [] ==> Fresh(s, ops[0]) && LegalRun(Step(s, ops[0]), ops[1..])
  }
}
