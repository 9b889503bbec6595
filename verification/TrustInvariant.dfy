/**
 * The inductive invariant of the mobile trust protocol. Each clause names only the
 * maps it is about, so an operation has nothing to prove about the maps it leaves alone.
 */
module TrustInvariant {
  import opened Common
  import opened TrustModel

  type Credentials = map<Id, Credential>
  type Ledger = map<(Id, Operation, Id), Entry>

  /** The credential stored under `h` is found again through its id. */
  ghost predicate HashIndexed(credentials: Credentials, hashById: map<Id, Id>, h: Id) {
    h in credentials ==> credentials[h].id in hashById && hashById[credentials[h].id] == h
  }

  /** The id `i` leads to a stored credential of that id. */
  ghost predicate IdIndexed(credentials: Credentials, hashById: map<Id, Id>, i: Id) {
    i in hashById ==> hashById[i] in credentials && credentials[hashById[i]].id == i
  }

  /** The index from credential id to hash and the credentials by hash describe the same pairs. */
  ghost predicate Indexed(credentials: Credentials, hashById: map<Id, Id>) {
    && (forall h {:trigger HashIndexed(credentials, hashById, h)} :: HashIndexed(credentials, hashById, h))
    && (forall i {:trigger IdIndexed(credentials, hashById, i)} :: IdIndexed(credentials, hashById, i))
  }

  /** A device has a collection mode and an employee of its organization who lists it. */
  ghost predicate DeviceHoused(employees: map<Id, Employee>, devices: map<Id, Device>, modes: map<Id, Mode>, d: Id) {
    d in devices ==>
      && d in modes
      && devices[d].employeeId in employees
      && employees[devices[d].employeeId].organizationId == devices[d].organizationId
      && d in employees[devices[d].employeeId].deviceIds
  }

  /** An employee lists only devices of their own. */
  ghost predicate ListsOwn(employees: map<Id, Employee>, devices: map<Id, Device>, e: Id) {
    e in employees ==> forall d :: d in employees[e].deviceIds ==> d in devices && devices[d].employeeId == e
  }

  ghost predicate Housed(employees: map<Id, Employee>, devices: map<Id, Device>, modes: map<Id, Mode>) {
    && (forall d {:trigger DeviceHoused(employees, devices, modes, d)} :: DeviceHoused(employees, devices, modes, d))
    && (forall e {:trigger ListsOwn(employees, devices, e)} :: ListsOwn(employees, devices, e))
  }

  /** An installation leads to a device of that organization and installation. */
  ghost predicate LeadsHome(byInstallation: map<(Id, Id), Id>, devices: map<Id, Device>, k: (Id, Id)) {
    k in byInstallation ==>
      && byInstallation[k] in devices
      && devices[byInstallation[k]].organizationId == k.0
      && devices[byInstallation[k]].installationId == k.1
  }

  ghost predicate Installed(byInstallation: map<(Id, Id), Id>, devices: map<Id, Device>) {
    forall k {:trigger LeadsHome(byInstallation, devices, k)} :: LeadsHome(byInstallation, devices, k)
  }

  /** A credential carries the identity of the device it was issued to. */
  ghost predicate OwnedBy(c: Credential, devices: map<Id, Device>) {
    && c.deviceId in devices
    && devices[c.deviceId].organizationId == c.organizationId
    && devices[c.deviceId].employeeId == c.employeeId
  }

  ghost predicate Owned(credentials: Credentials, devices: map<Id, Device>) {
    forall h {:trigger OwnedBy(credentials[h], devices)} :: h in credentials ==> OwnedBy(credentials[h], devices)
  }

  /** How the lifecycle state and the time stamps of one credential fit together. */
  ghost predicate Shaped(c: Credential) {
    && (c.lifecycle in {Pending, Active} ==> c.consumedAt.None?)
    && (c.lifecycle == Consumed ==> c.consumedAt.Some?)
    && (c.lifecycle == Revoked ==> c.revokedAt.Some?)
    && (c.credentialType == Session ==> c.consumedAt.None?)
    && (c.lifecycle == Pending ==> c.credentialType == Session && c.rotatedFrom.Some?)
  }

  /** The session from which a credential says it was rotated is a session of the same device. */
  ghost predicate Rooted(credentials: Credentials, hashById: map<Id, Id>, c: Credential) {
    && c.rotatedFrom.Some?
    && c.rotatedFrom.value in hashById
    && hashById[c.rotatedFrom.value] in credentials
    && credentials[hashById[c.rotatedFrom.value]].credentialType == Session
    && credentials[hashById[c.rotatedFrom.value]].deviceId == c.deviceId
  }

  ghost predicate FitsIn(credentials: Credentials, hashById: map<Id, Id>, h: Id) {
    h in credentials ==>
      && Shaped(credentials[h])
      && (credentials[h].lifecycle == Pending ==> Rooted(credentials, hashById, credentials[h]))
  }

  ghost predicate WellShaped(credentials: Credentials, hashById: map<Id, Id>) {
    forall h {:trigger FitsIn(credentials, hashById, h)} :: FitsIn(credentials, hashById, h)
  }

  /** What a usable credential implies about device, employee and consent. */
  ghost predicate Backed(c: Credential, employees: map<Id, Employee>, devices: map<Id, Device>,
                         consents: map<Id, Consent>)
  {
    && c.employeeId in employees && c.deviceId in devices
    && if c.credentialType == Session then
         devices[c.deviceId].status == DeviceConnected && employees[c.employeeId].status == Working &&
         c.deviceId in consents && consents[c.deviceId].withdrawnAt.None?
       else
         devices[c.deviceId].status == DevicePending && employees[c.employeeId].status in {Invited, Working} &&
         c.deviceId !in consents
  }

  ghost predicate AllBacked(credentials: Credentials, employees: map<Id, Employee>, devices: map<Id, Device>,
                            consents: map<Id, Consent>)
  {
    forall h {:trigger Backed(credentials[h], employees, devices, consents)} ::
      h in credentials && Usable(credentials[h]) ==> Backed(credentials[h], employees, devices, consents)
  }

  /** A device has at most one usable credential. */
  ghost predicate SingleUsable(credentials: Credentials) {
    forall g, h {:trigger Usable(credentials[g]), Usable(credentials[h])} ::
      g in credentials && h in credentials && Usable(credentials[g]) && Usable(credentials[h]) &&
      credentials[g].deviceId == credentials[h].deviceId ==>
      g == h
  }

  /** Stamped as revoked without being in the revoked state: only suspension does that, and it is for good. */
  predicate Frozen(c: Credential) {
    c.revokedAt.Some? && c.lifecycle != Revoked
  }

  ghost predicate OutOfService(c: Credential, employees: map<Id, Employee>, devices: map<Id, Device>) {
    && c.deviceId in devices && devices[c.deviceId].status == DeviceRevoked
    && c.employeeId in employees && employees[c.employeeId].status == Paused
  }

  ghost predicate FrozenForGood(credentials: Credentials, employees: map<Id, Employee>, devices: map<Id, Device>) {
    forall h {:trigger OutOfService(credentials[h], employees, devices)} ::
      h in credentials && Frozen(credentials[h]) ==> OutOfService(credentials[h], employees, devices)
  }

  /** What a ledger entry says about the credential it names, in every later state. */
  ghost predicate EntryBacked(k: (Id, Operation, Id), e: Entry, credentials: Credentials, hashById: map<Id, Id>) {
    && e.credentialId in hashById && hashById[e.credentialId] in credentials
    && var c := credentials[hashById[e.credentialId]];
       && c.deviceId == k.0
       && (k.1 == OpActivate ==> c.credentialType == Bootstrap && c.lifecycle in {Consumed, Revoked})
       && (k.1 == OpRevoke ==> c.credentialType == Session && c.lifecycle == Revoked)
       && (k.1 == OpPrepare ==> e.proposedHash.Some? && e.proposedHash.value in credentials &&
                                credentials[e.proposedHash.value].deviceId == k.0)
       && (k.1 == OpConfirm ==>
             && c.credentialType == Session && c.lifecycle in {Active, Revoked} && Rooted(credentials, hashById, c)
             && credentials[hashById[c.rotatedFrom.value]].lifecycle == Revoked)
  }

  ghost predicate Recorded(ledger: Ledger, credentials: Credentials, hashById: map<Id, Id>) {
    forall k {:trigger EntryBacked(k, ledger[k], credentials, hashById)} ::
      k in ledger ==> EntryBacked(k, ledger[k], credentials, hashById)
  }

  /** The session that the rotation confirmed under a ledger entry replaced. */
  ghost function Replaced(e: Entry, credentials: Credentials, hashById: map<Id, Id>): Option<Id> {
    if e.credentialId in hashById && hashById[e.credentialId] in credentials
    then credentials[hashById[e.credentialId]].rotatedFrom else None
  }

  /** No session is replaced by two confirmed rotations. */
  ghost predicate LinearRotations(ledger: Ledger, credentials: Credentials, hashById: map<Id, Id>) {
    forall j, k {:trigger Replaced(ledger[j], credentials, hashById), Replaced(ledger[k], credentials, hashById)} ::
      j in ledger && k in ledger && j.1 == OpConfirm && k.1 == OpConfirm &&
      Replaced(ledger[j], credentials, hashById) == Replaced(ledger[k], credentials, hashById) ==>
      j == k
  }

  /** Consent receipts are kept for known devices only. */
  ghost predicate AllConsentsHoused(s: State) {
    forall d :: d in s.consents ==> d in s.devices
  }

  /** Devices, employees, and who owns what. */
  ghost predicate Structured(s: State) {
    && AllConsentsHoused(s)
    && Indexed(s.credentials, s.hashById)
    && Housed(s.employees, s.devices, s.modes)
    && Installed(s.devicesByInstallation, s.devices)
    && Owned(s.credentials, s.devices)
    && WellShaped(s.credentials, s.hashById)
  }

  /** What usable and frozen credentials imply. */
  ghost predicate Trusted(s: State) {
    && AllBacked(s.credentials, s.employees, s.devices, s.consents)
    && SingleUsable(s.credentials)
    && FrozenForGood(s.credentials, s.employees, s.devices)
  }

  ghost predicate Chronicled(s: State) {
    && Recorded(s.ledger, s.credentials, s.hashById)
    && LinearRotations(s.ledger, s.credentials, s.hashById)
  }

  ghost predicate Valid(s: State) {
    Structured(s) && Trusted(s) && Chronicled(s)
  }
}
