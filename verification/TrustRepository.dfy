/**
 * The part of the in-memory repository that keeps devices and credentials, in its own form: one
 * object whose methods update its maps. Each method is proved to do what the transition of the
 * same name in TrustModel says, so the theorems about runs hold of this object.
 */
module TrustRepository {
  import opened Common
  import opened TrustModel
  import opened TrustInvariant
  import opened TrustSteps
  import opened TrustRuns

  // ---------------------------------------------------------------- sweeps over the stored credentials

  /** Revokes every credential of the device that carries no revocation time yet. */
  method RevokeCredentials(stored: Credentials, deviceId: Id, at: Time) returns (swept: Credentials)
    ensures swept == RevokeAll(stored, deviceId, at)
  {
    swept := stored;
    var todo := stored.Keys;
    while todo != {}
      invariant todo <= swept.Keys == stored.Keys
      invariant forall h :: h in stored ==>
        swept[h] == if h in todo then stored[h] else RevokeOne(stored[h], deviceId, at)
      decreases todo
    {
      var h: Id :| h in todo;
      var c := swept[h];
      if c.deviceId == deviceId && c.revokedAt.None? {
        swept := swept[h := c.(revokedAt := Some(at), lifecycle := Revoked)];
      }
      todo := todo - {h};
    }
  }

  /** Half way through an administrator's sweep: `todo` holds the hashes not yet visited. */
  ghost predicate SweptOutside(was: Credentials, now: Credentials, todo: set<Id>, deviceId: Id, at: Time) {
    && now.Keys == was.Keys
    && forall h :: h in was ==> now[h] == if h in todo then was[h] else AdminRevokeOne(was[h], deviceId, at)
  }

  lemma {:induction false} SweptStep(was: Credentials, now: Credentials, todo: set<Id>, deviceId: Id, at: Time, h: Id)
    requires SweptOutside(was, now, todo, deviceId, at) && h in todo && h in was
    ensures SweptOutside(was, now[h := AdminRevokeOne(was[h], deviceId, at)], todo - {h}, deviceId, at)
  {
  }

  /** A credential that is no target stands as the sweep would leave it. */
  lemma {:induction false} SweptNone(now: Credentials, deviceId: Id, at: Time, h: Id)
    requires h in now && !AdminTarget(now[h], deviceId)
    ensures now[h := AdminRevokeOne(now[h], deviceId, at)] == now
  {
  }

  /** Taking `h` out of the set still to visit adds it to the targets visited, if it is one. */
  lemma {:induction false} CountOne(targets: set<Id>, todo: set<Id>, h: Id)
    requires h in todo
    ensures |targets - (todo - {h})| == |targets - todo| + if h in targets then 1 else 0
  {
    assert targets - (todo - {h}) == if h in targets then (targets - todo) + {h} else targets - todo;
  }

  /** Revokes the active and pending credentials of the device and counts them. */
  method RevokeLiveCredentials(stored: Credentials, deviceId: Id, at: Time) returns (swept: Credentials, count: nat)
    ensures swept == AdminRevokeAll(stored, deviceId, at)
    ensures count == |AdminTargets(stored, deviceId)|
  {
    ghost var targets := AdminTargets(stored, deviceId);
    swept, count := stored, 0;
    var todo := stored.Keys;
    assert targets - todo == {};
    while todo != {}
      invariant todo <= stored.Keys
      invariant count == |targets - todo|
      invariant SweptOutside(stored, swept, todo, deviceId, at)
      decreases todo
    {
      var h: Id :| h in todo;
      CountOne(targets, todo, h);
      SweptStep(stored, swept, todo, deviceId, at, h);
      if AdminTarget(swept[h], deviceId) {
        swept := swept[h := swept[h].(revokedAt := Some(at), lifecycle := Revoked)];
        count := count + 1;
      } else {
        SweptNone(swept, deviceId, at, h);
      }
      todo := todo - {h};
    }
    assert targets - todo == targets;
  }

  /** Stamps the credentials of one device as revoked and leaves their lifecycle state alone. */
  method FreezeCredentials(stored: Credentials, deviceId: Id, at: Time) returns (swept: Credentials)
    ensures swept == FreezeAll(stored, {deviceId}, at)
  {
    swept := stored;
    var todo := stored.Keys;
    while todo != {}
      invariant todo <= swept.Keys == stored.Keys
      invariant forall h :: h in stored ==>
        swept[h] == if h in todo then stored[h] else FreezeAll(stored, {deviceId}, at)[h]
      decreases todo
    {
      var h: Id :| h in todo;
      if swept[h].deviceId == deviceId && swept[h].revokedAt.None? {
        swept := swept[h := swept[h].(revokedAt := Some(at))];
      }
      todo := todo - {h};
    }
  }

  // ---------------------------------------------------------------- devices of a suspended employee

  ghost function ListedDevices(devices: map<Id, Device>, organizationId: Id, deviceIds: seq<Id>): set<Id> {
    set d | d in devices && d in deviceIds && devices[d].organizationId == organizationId
  }

  ghost function DevicesFrozen(s: State, reached: set<Id>, at: Time): State {
    s.(devices := map d | d in s.devices ::
         if d in reached then s.devices[d].(status := DeviceRevoked, revokedAt := Some(at)) else s.devices[d],
       credentials := FreezeAll(s.credentials, reached, at))
  }

  lemma {:induction false} NoneReached(s: State, at: Time)
    ensures DevicesFrozen(s, {}, at) == s
  {
    assert DevicesFrozen(s, {}, at).devices == s.devices;
    assert FreezeAll(s.credentials, {}, at) == s.credentials;
  }

  /** Freezing one more device is freezing it in the state where the others are frozen. */
  lemma {:induction false} OneMoreReached(was: State, reached: set<Id>, d: Id, at: Time)
    requires d in was.devices
    ensures var now := DevicesFrozen(was, reached, at);
            d in now.devices && DevicesFrozen(was, reached + {d}, at) == now.(
              devices := now.devices[d := now.devices[d].(status := DeviceRevoked, revokedAt := Some(at))],
              credentials := FreezeAll(now.credentials, {d}, at))
  {
    var now := DevicesFrozen(was, reached, at);
    assert DevicesFrozen(was, reached + {d}, at).devices ==
           now.devices[d := now.devices[d].(status := DeviceRevoked, revokedAt := Some(at))];
    assert FreezeAll(was.credentials, reached + {d}, at) == FreezeAll(now.credentials, {d}, at);
  }

  // ---------------------------------------------------------------- the seeded workspaces

  const ALPHA: Id := 1
  const BETA: Id := 2
  const AMIT: Id := 1
  const PRIYA: Id := 2
  const RIYA: Id := 3
  const AMIT_DEVICE: Id := 1
  const RIYA_DEVICE: Id := 2
  const AMIT_INSTALLATION: Id := 1
  const RIYA_INSTALLATION: Id := 2

  /** Five users of one organization, one for each role. */
  function RoleUsers(o: Id, first: Id): map<Id, User> {
    map[first := User(o, true), first + 1 := User(o, true), first + 2 := User(o, true), first + 3 := User(o, true),
        first + 4 := User(o, true)]
  }

  function SeededEmployees(): map<Id, Employee> {
    map[AMIT := Employee(ALPHA, Working, [AMIT_DEVICE]), PRIYA := Employee(ALPHA, Invited, []),
        RIYA := Employee(BETA, Working, [RIYA_DEVICE])]
  }

  function SeededDevices(): map<Id, Device> {
    map[AMIT_DEVICE := Device(ALPHA, AMIT, AMIT_INSTALLATION, DeviceConnected, 0, None),
        RIYA_DEVICE := Device(BETA, RIYA, RIYA_INSTALLATION, DeviceConnected, 0, None)]
  }

  function SeededInstallations(): map<(Id, Id), Id> {
    map[(ALPHA, AMIT_INSTALLATION) := AMIT_DEVICE, (BETA, RIYA_INSTALLATION) := RIYA_DEVICE]
  }

  function SeededModes(): map<Id, Mode> {
    map[AMIT_DEVICE := AndroidCallLog, RIYA_DEVICE := AndroidCallLog]
  }

  lemma SeededHoused()
    ensures Housed(SeededEmployees(), SeededDevices(), SeededModes())
    ensures Installed(SeededInstallations(), SeededDevices())
  {
  }

  /** Nobody is trusted yet, so only the housing of the devices is to be shown. */
  lemma SeededValid(s: State)
    requires s.employees == SeededEmployees() && s.devices == SeededDevices() && s.modes == SeededModes()
    requires s.devicesByInstallation == SeededInstallations()
    requires s.credentials == map[] && s.hashById == map[] && s.consents == map[] && s.ledger == map[]
    ensures Valid(s)
  {
    SeededHoused();
    hide SeededEmployees, SeededDevices, SeededInstallations, SeededModes, Housed, Installed;
  }

  class MobileTrustRepository {
    /** The private maps of the repository, held together as one record. */
    var state: State

    /**
     * The seeded workspaces: two organizations with a user for every role; the first has an employee at work and an
     * invited one, the second an employee at work; each of the two at work has a connected device.
     */
    constructor Seeded(androidPolicy: Policy, demoPolicy: Policy)
      ensures Valid(state)
      ensures state.organizations == map[ALPHA := OrgActive, BETA := OrgActive]
      ensures state.employees == SeededEmployees() && state.devices == SeededDevices()
      ensures state.modes == SeededModes() && state.devicesByInstallation == SeededInstallations()
      ensures state.credentials == map[] && state.consents == map[] && state.ledger == map[]
      ensures state.redemptions == map[]
      ensures state.policies == map[AndroidCallLog := androidPolicy, SyntheticDemo := demoPolicy]
    {
      hide RoleUsers, SeededEmployees, SeededDevices, SeededInstallations, SeededModes, Valid;
      state := State(
        map[ALPHA := OrgActive, BETA := OrgActive],
        RoleUsers(ALPHA, 1) + RoleUsers(BETA, 6),
        SeededEmployees(), SeededDevices(), SeededInstallations(), SeededModes(),
        map[AndroidCallLog := androidPolicy, SyntheticDemo := demoPolicy],
        map[], map[], map[], map[], map[], map[], map[], map[],
        map[ALPHA := [], BETA := []],
        map[]);
      new;
      SeededValid(state);
    }

    /** The linear search through the stored credentials, and the ten checks. */
    method FindCurrentMobileCredential(ctx: Context, t: CredentialType, at: Time) returns (found: Option<Id>)
      requires Indexed(state.credentials, state.hashById)
      ensures found == FindCurrent(state, ctx, t, at)
    {
      found := None;
      if ctx.credentialType != t {
        return;
      }
      var todo := state.credentials.Keys;
      while todo != {}
        invariant todo <= state.credentials.Keys
        invariant forall h :: h in state.credentials && h !in todo ==> !MatchesContext(state.credentials[h], ctx, t)
        decreases todo
      {
        var h: Id :| h in todo;
        if MatchesContext(state.credentials[h], ctx, t) {
          assert HashIndexed(state.credentials, state.hashById, h);
          var c := state.credentials[h];
          if c.lifecycle != Active || c.revokedAt.Some? || c.consumedAt.Some? || c.expiresAt <= at {
            return;
          }
          var trusted := CheckTrust(ctx, t);
          return if trusted then Some(h) else None;
        }
        todo := todo - {h};
      }
    }

    method CheckTrust(ctx: Context, t: CredentialType) returns (trusted: bool)
      ensures trusted == TrustChecks(state, ctx, t)
    {
      if ctx.organizationId !in state.organizations ||
         state.organizations[ctx.organizationId] !in {OrgTrial, OrgActive} ||
         ctx.employeeId !in state.employees || state.employees[ctx.employeeId].organizationId != ctx.organizationId ||
         ctx.deviceId !in state.devices {
        return false;
      }
      var device, employee := state.devices[ctx.deviceId], state.employees[ctx.employeeId];
      if device.organizationId != ctx.organizationId || device.employeeId != ctx.employeeId ||
         device.installationId != ctx.installationId || ctx.deviceId !in state.modes ||
           state.modes[ctx.deviceId] != ctx.mode {
        return false;
      }
      if t == Bootstrap {
        return device.status == DevicePending && employee.status in {Invited, Working} &&
            ctx.deviceId !in state.consents;
      }
      return device.status == DeviceConnected && employee.status == Working &&
             ctx.deviceId in state.consents && state.consents[ctx.deviceId].withdrawnAt.None?;
    }

    method ResolveDeviceCredential(h: Id, t: CredentialType, at: Time) returns (ctx: Option<Context>)
      requires Valid(state)
      ensures ctx == ResolveCredential(state, h, t, at)
    {
      if h !in state.credentials || state.credentials[h].credentialType != t {
        return None;
      }
      var c := state.credentials[h];
      if c.deviceId !in state.devices || c.deviceId !in state.modes {
        return None;
      }
      var current := IsConsentCurrent(c.deviceId);
      var context := Context(c.id, c.credentialType, c.organizationId, c.employeeId, c.deviceId,
                             state.devices[c.deviceId].installationId, state.modes[c.deviceId],
                               state.devices[c.deviceId].permissions,
                             c.lifecycle, current);
      var found := FindCurrentMobileCredential(context, t, at);
      return if found.Some? then Some(context) else None;
    }

    /** A retry is authenticated by the ledger entry that its first call left. */
    method ResolveDeviceCredentialReplay(h: Id, t: CredentialType, op: Operation, requestId: Id, fingerprint: Id)
      returns (ctx: Option<Context>)
      ensures ctx == ResolveReplay(state, h, t, op, requestId, fingerprint)
    {
      if h !in state.credentials || state.credentials[h].credentialType != t {
        return None;
      }
      var c := state.credentials[h];
      var expected := if op == OpActivate then Consumed else if op == OpRevoke then Revoked else Active;
      var key := (c.deviceId, op, requestId);
      if c.lifecycle != expected || key !in state.ledger || state.ledger[key].credentialId != c.id ||
         state.ledger[key].fingerprint != fingerprint {
        return None;
      }
      return ContextFor(state, c);
    }

    method ResolvePendingRotationCredential(h: Id, prepareRequestId: Id, at: Time) returns (ctx: Option<Context>)
      ensures ctx == ResolvePending(state, h, prepareRequestId, at)
    {
      if h !in state.credentials {
        return None;
      }
      var c := state.credentials[h];
      if c.credentialType != Session || c.lifecycle != Pending || c.requestId != prepareRequestId || c.expiresAt <= at {
        return None;
      }
      var key := (c.deviceId, OpPrepare, prepareRequestId);
      if key !in state.ledger || state.ledger[key].proposedHash != Some(h) {
        return None;
      }
      return ContextFor(state, c);
    }

    method IsConsentCurrent(deviceId: Id) returns (current: bool)
      ensures current == ConsentCurrent(state, deviceId)
    {
      if deviceId !in state.consents || state.consents[deviceId].withdrawnAt.Some? || deviceId !in state.modes ||
         state.modes[deviceId] !in state.policies {
        return false;
      }
      var policy := state.policies[state.modes[deviceId]];
      return state.consents[deviceId].policyId == policy.id &&
          state.consents[deviceId].policyHash == policy.contentHash;
    }

    /** A redemption that passed every test: the device is paired anew. */
    method StorePairing(r: RedeemInput, at: Time) returns (outcome: RedemptionOutcome)
      requires CodeKnown(state, r.codeHash) && CodeOf(state, r.codeHash).employeeId in state.employees
      modifies this
      ensures state == PairEffect(old(state), r, at)
      ensures var code := CodeOf(old(state), r.codeHash);
              outcome == Redeemed(RedeemDevice(old(state), r, code.organizationId),
                                  PairedDevice(old(state), r, code), r.bootstrap.expiresAt, false)
    {
      var code := state.pairingCodes[state.pairingIdByHash[r.codeHash]];
      var employee := state.employees[code.employeeId];
      var key := (code.organizationId, r.installationId);
      var known := key in state.devicesByInstallation && state.devicesByInstallation[key] in state.devices;
      var d := if known then state.devicesByInstallation[key] else r.newDeviceId;
      var device := Device(code.organizationId, code.employeeId, r.installationId, DevicePending, r.permissions, None);
      var stored, receipts := state.credentials, state.consents;
      if known {
        device := state.devices[d].(status := DevicePending, permissions := r.permissions, revokedAt := None);
        stored := RevokeCredentials(state.credentials, d, at);
        receipts := state.consents - {d};
      }
      if d !in employee.deviceIds {
        employee := employee.(deviceIds := employee.deviceIds + [d]);
      }
      outcome := Redeemed(d, device, r.bootstrap.expiresAt, false);
      state := state.(
        pairingCodes := state.pairingCodes[state.pairingIdByHash[r.codeHash] := code.(consumedAt := Some(at))],
        devices := state.devices[d := device],
        modes := state.modes[d := code.mode],
        devicesByInstallation := state.devicesByInstallation[key := d],
        employees := state.employees[code.employeeId := employee],
        consents := receipts,
        credentials := stored[r.bootstrap.tokenHash :=
                              StoredCredential(r.bootstrap, code.organizationId, code.employeeId, d)],
        hashById := state.hashById[r.bootstrap.id := r.bootstrap.tokenHash],
        redemptions := state.redemptions[r.requestId := Redemption(r.codeHash, r.fingerprint, outcome)]);
    }

    /** A pairing that overwrites a stored hash is carried out like any other, and breaks the invariant. */
    method RedeemPairingCode(r: RedeemInput, at: Time) returns (outcome: RedemptionOutcome)
      requires Valid(state) && (NewPairing(state, r, at) ==> Proposed(state, r))
      modifies this
      ensures (state, outcome) == Redeem(old(state), r, at)
      ensures Valid(state) <==> !(NewPairing(old(state), r, at) && r.bootstrap.tokenHash in old(state).credentials)
    {
      RedeemKeepsExactly(state, r, at);
      if r.requestId in state.redemptions {
        var prior := state.redemptions[r.requestId];
        if prior.codeHash != r.codeHash || prior.fingerprint != r.fingerprint || !prior.result.Redeemed? ||
           prior.result.device.installationId != r.installationId {
          return PairingRequestConflict;
        }
        return prior.result.(replayed := true);
      }
      var refusal := RefuseRedemption(r, at);
      if refusal.Some? { return refusal.value; }
      outcome := StorePairing(r, at);
    }

    /** The tests of a redemption, in order. */
    method RefuseRedemption(r: RedeemInput, at: Time) returns (refusal: Option<RedemptionOutcome>)
      ensures refusal == RedeemRefusal(state, r, at)
    {
      if r.codeHash !in state.pairingIdByHash ||
         state.pairingIdByHash[r.codeHash] !in state.pairingCodes { return Some(NotFound); }
      var code := state.pairingCodes[state.pairingIdByHash[r.codeHash]];
      if code.revokedAt.Some? { return Some(CodeRevoked); }
      if code.consumedAt.Some? { return Some(CodeConsumed); }
      if code.expiresAt <= at { return Some(CodeExpired); }
      if code.employeeId !in state.employees { return Some(NotFound); }
      var employee := state.employees[code.employeeId];
      if employee.organizationId != code.organizationId || employee.status == Paused || employee.status == Deactivated {
        return Some(NotFound);
      }
      if code.mode != r.mode { return Some(NotFound); }
      var key := (code.organizationId, r.installationId);
      if key in state.devicesByInstallation && state.devicesByInstallation[key] in state.devices &&
         state.devices[state.devicesByInstallation[key]].employeeId != code.employeeId {
        return Some(InstallationConflict);
      }
      return None;
    }

    /** Activation: the bootstrap credential is consumed, consent recorded, and the session stored. */
    method StoreActivation(ctx: Context, b: Id, c: ConsentInput, n: NewCredential, fingerprint: Id, at: Time)
      returns (response: Response)
      requires b in state.credentials && ctx.deviceId in state.devices && ctx.employeeId in state.employees &&
        ctx.mode in state.policies
      modifies this
      ensures state == ActivateEffect(old(state), ctx, b, c, n, fingerprint, at)
      ensures response == Activated(ActiveDevice(old(state), ctx, c), n.expiresAt, state.policies[ctx.mode])
    {
      var active := state.policies[ctx.mode];
      var bootstrap := state.credentials[b];
      state := state.(credentials := state.credentials[b := bootstrap.(consumedAt := Some(at), lifecycle := Consumed)]);
      state := state.(consents := state.consents[ctx.deviceId := NewConsent(active, c, at)]);
      state := state.(credentials := state.credentials[n.tokenHash :=
        StoredCredential(n, ctx.organizationId, ctx.employeeId, ctx.deviceId)]);
      state := state.(hashById := state.hashById[n.id := n.tokenHash]);
      var device := state.devices[ctx.deviceId].(status := DeviceConnected, permissions := c.permissions);
      state := state.(devices := state.devices[ctx.deviceId := device]);
      var employee := state.employees[ctx.employeeId].(status := Working);
      state := state.(employees := state.employees[ctx.employeeId := employee]);
      response := Activated(device, n.expiresAt, active);
      state := state.(ledger := state.ledger[(ctx.deviceId, OpActivate, c.requestId) :=
        Entry(bootstrap.id, fingerprint, Some(n.tokenHash), response)]);
    }

    method ActivateMobileDevice(ctx: Context, c: ConsentInput, n: NewCredential, fingerprint: Id,
                                policy: Option<Policy>, at: Time) returns (outcome: Outcome)
      requires Valid(state) && n.id !in state.hashById
      modifies this
      ensures (state, outcome) == Activate(old(state), ctx, c, n, fingerprint, policy, at)
      ensures Valid(state)
    {
      ActivateStep(state, ctx, c, n, fingerprint, policy, at);
      var key := (ctx.deviceId, OpActivate, c.requestId);
      if key in state.ledger {
        var prior := state.ledger[key];
        if prior.credentialId != ctx.credentialId || prior.fingerprint != fingerprint ||
           prior.proposedHash != Some(n.tokenHash) {
          return Conflict;
        }
        return Reply(prior.response, true);
      }
      var current := FindCurrentMobileCredential(ctx, Bootstrap, at);
      if current.None? || n.credentialType != Session || n.lifecycle != Active || n.requestId != c.requestId ||
         !n.hexHash || n.tokenHash in state.credentials {
        return NoMatch;
      }
      if at + CLOCK_AHEAD < c.acceptedAt || c.acceptedAt < at - CLOCK_BEHIND { return ConsentRequired; }
      if ctx.mode !in state.policies || policy.None? || state.policies[ctx.mode] != policy.value ||
         c.policy != state.policies[ctx.mode] {
        return ConsentRequired;
      }
      var response := StoreActivation(ctx, current.value, c, n, fingerprint, at);
      return Reply(response, false);
    }

    /** Renewed consent: the receipt in force is withdrawn, and then replaced under the same key. */
    method StoreConsent(ctx: Context, c: ConsentInput, fingerprint: Id, at: Time) returns (response: Response)
      requires ctx.deviceId in state.devices && ctx.deviceId in state.consents && ctx.mode in state.policies
      modifies this
      ensures state == ReconsentEffect(old(state), ctx, c, fingerprint, at)
      ensures response == Reconsented(old(state.devices)[ctx.deviceId].(permissions := c.permissions),
                                      state.policies[ctx.mode], c.acceptedAt)
    {
      var active := state.policies[ctx.mode];
      var receipt := state.consents[ctx.deviceId].(withdrawnAt := Some(at));
      state := state.(consents := state.consents[ctx.deviceId := receipt]);
      state := state.(consents := state.consents[ctx.deviceId := NewConsent(active, c, at)]);
      assert state.consents == old(state.consents)[ctx.deviceId := NewConsent(active, c, at)];
      var device := state.devices[ctx.deviceId].(permissions := c.permissions);
      state := state.(devices := state.devices[ctx.deviceId := device]);
      response := Reconsented(device, active, c.acceptedAt);
      state := state.(ledger := state.ledger[(ctx.deviceId, OpReconsent, c.requestId) :=
        Entry(ctx.credentialId, fingerprint, None, response)]);
    }

    method ReconsentMobileDevice(ctx: Context, c: ConsentInput, fingerprint: Id, policy: Option<Policy>, at: Time)
      returns (outcome: Outcome)
      requires Valid(state)
      modifies this
      ensures (state, outcome) == Reconsent(old(state), ctx, c, fingerprint, policy, at)
      ensures Valid(state)
    {
      ReconsentStep(state, ctx, c, fingerprint, policy, at);
      var key := (ctx.deviceId, OpReconsent, c.requestId);
      if key in state.ledger {
        var prior := state.ledger[key];
        if prior.credentialId != ctx.credentialId || prior.fingerprint != fingerprint { return Conflict; }
        return Reply(prior.response, true);
      }
      var current := FindCurrentMobileCredential(ctx, Session, at);
      if current.None? { return NoMatch; }
      if at + CLOCK_AHEAD < c.acceptedAt || c.acceptedAt < at - CLOCK_BEHIND { return ConsentRequired; }
      if ctx.mode !in state.policies || policy.None? || state.policies[ctx.mode] != policy.value ||
         c.policy != state.policies[ctx.mode] {
        return ConsentRequired;
      }
      var response := StoreConsent(ctx, c, fingerprint, at);
      return Reply(response, false);
    }

    method PrepareDeviceSessionRotation(ctx: Context, n: NewCredential, requestId: Id, fingerprint: Id, at: Time)
      returns (outcome: Outcome)
      requires Valid(state) && n.id !in state.hashById
      modifies this
      ensures (state, outcome) == Prepare(old(state), ctx, n, requestId, fingerprint, at)
      ensures Valid(state)
    {
      PrepareStep(state, ctx, n, requestId, fingerprint, at);
      var key := (ctx.deviceId, OpPrepare, requestId);
      if key in state.ledger {
        var prior := state.ledger[key];
        if prior.credentialId != ctx.credentialId || prior.fingerprint != fingerprint ||
           prior.proposedHash != Some(n.tokenHash) {
          return Conflict;
        }
        return Reply(prior.response, true);
      }
      var current := FindCurrentMobileCredential(ctx, Session, at);
      if current.None? || n.credentialType != Session || n.lifecycle != Pending || n.requestId != requestId ||
         n.rotatedFrom != Some(ctx.credentialId) || !n.hexHash || n.tokenHash in state.credentials {
        return NoMatch;
      }
      var consented := IsConsentCurrent(ctx.deviceId);
      if !consented { return ConsentRequired; }
      StorePending(ctx, n, requestId, fingerprint, at);
      return Reply(Prepared(requestId, n.expiresAt, at), false);
    }

    method StorePending(ctx: Context, n: NewCredential, requestId: Id, fingerprint: Id, at: Time)
      modifies this
      ensures state == PrepareEffect(old(state), ctx, n, requestId, fingerprint, at)
    {
      state := state.(credentials := state.credentials[n.tokenHash :=
        StoredCredential(n, ctx.organizationId, ctx.employeeId, ctx.deviceId)]);
      state := state.(hashById := state.hashById[n.id := n.tokenHash]);
      state := state.(ledger := state.ledger[(ctx.deviceId, OpPrepare, requestId) :=
        Entry(ctx.credentialId, fingerprint, Some(n.tokenHash), Prepared(requestId, n.expiresAt, at))]);
    }

    method ConfirmDeviceSessionRotation(ctx: Context, requestId: Id, prepareRequestId: Id, fingerprint: Id, at: Time)
      returns (outcome: Outcome)
      requires Valid(state)
      modifies this
      ensures (state, outcome) == Confirm(old(state), ctx, requestId, prepareRequestId, fingerprint, at)
      ensures Valid(state)
    {
      ConfirmStep(state, ctx, requestId, prepareRequestId, fingerprint, at);
      var key := (ctx.deviceId, OpConfirm, requestId);
      if key in state.ledger {
        var prior := state.ledger[key];
        if prior.credentialId != ctx.credentialId || prior.fingerprint != fingerprint { return Conflict; }
        return Reply(prior.response, true);
      }
      if ctx.credentialId !in state.hashById ||
         state.hashById[ctx.credentialId] !in state.credentials {
        return NoMatch;
      }
      var pendingHash := state.hashById[ctx.credentialId];
      var pending := state.credentials[pendingHash];
      if pending.lifecycle != Pending || pending.requestId != prepareRequestId || pending.rotatedFrom.None? ||
         pending.expiresAt <= at {
        return NoMatch;
      }
      var prepareKey := (ctx.deviceId, OpPrepare, prepareRequestId);
      if prepareKey !in state.ledger || state.ledger[prepareKey].proposedHash != Some(pendingHash) ||
         pending.rotatedFrom.value !in state.hashById ||
           state.hashById[pending.rotatedFrom.value] !in state.credentials {
        return NoMatch;
      }
      var sourceHash := state.hashById[pending.rotatedFrom.value];
      if state.credentials[sourceHash].lifecycle != Active ||
         state.credentials[sourceHash].revokedAt.Some? { return NoMatch; }
      state := state.(credentials := state.credentials[pendingHash := pending.(lifecycle := Active)]);
      state := state.(credentials := state.credentials[sourceHash :=
        state.credentials[sourceHash].(lifecycle := Revoked, revokedAt := Some(at))]);
      var response := Confirmed(requestId, pending.expiresAt, at);
      state := state.(ledger := state.ledger[key := Entry(pending.id, fingerprint, Some(pendingHash), response)]);
      return Reply(response, false);
    }

    method RevokeMobileSession(ctx: Context, requestId: Id, fingerprint: Id, at: Time) returns (outcome: Outcome)
      requires Valid(state)
      modifies this
      ensures (state, outcome) == SelfRevoke(old(state), ctx, requestId, fingerprint, at)
      ensures Valid(state)
    {
      SelfRevokeStep(state, ctx, requestId, fingerprint, at);
      var key := (ctx.deviceId, OpRevoke, requestId);
      if key in state.ledger {
        var prior := state.ledger[key];
        if prior.credentialId != ctx.credentialId || prior.fingerprint != fingerprint { return Conflict; }
        return Reply(prior.response, true);
      }
      var current := FindCurrentMobileCredential(ctx, Session, at);
      if current.None? { return NoMatch; }
      StoreSelfRevocation(ctx, requestId, fingerprint, at);
      return Reply(SessionRevoked(ctx.deviceId, at, at), false);
    }

    method StoreSelfRevocation(ctx: Context, requestId: Id, fingerprint: Id, at: Time)
      requires ctx.deviceId in state.devices && ctx.deviceId in state.consents
      modifies this
      ensures state == SelfRevokeEffect(old(state), ctx, requestId, fingerprint, at)
    {
      var stored := RevokeCredentials(state.credentials, ctx.deviceId, at);
      state := state.(credentials := stored);
      var receipt := state.consents[ctx.deviceId].(withdrawnAt := Some(at));
      state := state.(consents := state.consents[ctx.deviceId := receipt]);
      state := state.(devices := state.devices[ctx.deviceId :=
          state.devices[ctx.deviceId].(status := DeviceRevoked, revokedAt := Some(at))]);
      state := state.(ledger := state.ledger[(ctx.deviceId, OpRevoke, requestId) :=
        Entry(ctx.credentialId, fingerprint, None, SessionRevoked(ctx.deviceId, at, at))]);
    }

    method RevokeDeviceByAdministrator(a: AdminInput, at: Time) returns (outcome: AdminOutcome)
      requires Valid(state)
      modifies this
      ensures (state, outcome) == AdminRevoke(old(state), a, at)
      ensures Valid(state)
    {
      AdminRevokeStep(state, a, at);
      var key := (a.organizationId, a.requestId);
      if key in state.adminRevocations {
        var prior := state.adminRevocations[key];
        if prior.deviceId != a.deviceId || prior.actorUserId != a.actorUserId || prior.fingerprint != a.fingerprint {
          return AdminConflict;
        }
        return AdminReply(prior.result, true);
      }
      if a.deviceId !in state.devices || state.devices[a.deviceId].organizationId != a.organizationId {
        return AdminNoMatch;
      }
      var device := state.devices[a.deviceId];
      if device.status == DeviceRevoked || device.revokedAt.Some? { return AdminConflict; }
      if a.actorUserId !in state.users || state.users[a.actorUserId].organizationId != a.organizationId ||
         !state.users[a.actorUserId].active {
        return AdminNoMatch;
      }
      if a.organizationId !in state.audits { return AdminFault; }
      if (exists e :: e in state.audits[a.organizationId] && e.id == a.auditEventId) ||
         a.outboxEventId in state.outbox {
        return AdminFault;
      }
      var result := StoreAdminRevocation(a, at);
      return AdminReply(result, false);
    }

    method StoreAdminRevocation(a: AdminInput, at: Time) returns (result: AdminResult)
      requires a.deviceId in state.devices && a.organizationId in state.audits
      modifies this
      ensures state == AdminRevokeEffect(old(state), a, at)
      ensures result == AdminRevokeResult(old(state), a, at)
    {
      var device := state.devices[a.deviceId];
      var stored, count := RevokeLiveCredentials(state.credentials, a.deviceId, at);
      var withdrawn := a.deviceId in state.consents && state.consents[a.deviceId].withdrawnAt.None?;
      var receipts := state.consents;
      if withdrawn {
        receipts := receipts[a.deviceId := receipts[a.deviceId].(withdrawnAt := Some(at))];
      }
      result := AdminResult(a.deviceId, device.employeeId, at, a.reason, count, withdrawn);
      state := state.(
        credentials := stored,
        consents := receipts,
        devices := state.devices[a.deviceId := device.(status := DeviceRevoked, revokedAt := Some(at))],
        audits := state.audits[a.organizationId := state.audits[a.organizationId] +
          [AuditEvent(a.auditEventId, a.actorUserId, a.requestId, a.deviceId, result)]],
        outbox := state.outbox[a.outboxEventId := OutboxEvent(a.organizationId, a.requestId, a.deviceId)],
        adminRevocations := state.adminRevocations[(a.organizationId, a.requestId) :=
          AdminRevocation(a.deviceId, a.actorUserId, a.fingerprint, result)]);
    }

    method SuspendEmployee(organizationId: Id, employeeId: Id, at: Time) returns (found: bool)
      requires Valid(state)
      modifies this
      ensures (state, found) == Suspend(old(state), organizationId, employeeId, at)
      ensures Valid(state)
    {
      SuspendStep(state, organizationId, employeeId, at);
      if employeeId !in state.employees || state.employees[employeeId].organizationId != organizationId {
        return false;
      }
      state := state.(employees := state.employees[employeeId := state.employees[employeeId].(status := Paused)]);
      RevokeListedDevices(organizationId, state.employees[employeeId].deviceIds, at);
      ghost var was := old(state);
      assert ListedDevices(was.devices, organizationId, was.employees[employeeId].deviceIds) ==
             SuspendedDevices(was, organizationId, employeeId);
      return true;
    }

    /** Revokes the listed devices of the organization, one after the other. */
    method RevokeListedDevices(organizationId: Id, deviceIds: seq<Id>, at: Time)
      modifies this
      ensures state == DevicesFrozen(old(state), ListedDevices(old(state).devices, organizationId, deviceIds), at)
    {
      ghost var was := state;
      ghost var reached: set<Id> := {};
      NoneReached(was, at);
      for i := 0 to |deviceIds|
        invariant reached == ListedDevices(was.devices, organizationId, deviceIds[..i])
        invariant state == DevicesFrozen(was, reached, at)
      {
        var d := deviceIds[i];
        assert deviceIds[..i + 1] == deviceIds[..i] + [d];
        if d in state.devices && state.devices[d].organizationId == organizationId {
          OneMoreReached(was, reached, d, at);
          var stored := FreezeCredentials(state.credentials, d, at);
          state := state.(
            devices := state.devices[d := state.devices[d].(status := DeviceRevoked, revokedAt := Some(at))],
            credentials := stored);
          reached := reached + {d};
        }
      }
      assert deviceIds[..|deviceIds|] == deviceIds;
    }

    method RevokePairing(organizationId: Id, id: Id, at: Time)
      modifies this
      ensures state == RevokePairingCode(old(state), organizationId, id, at)
    {
      if id in state.pairingCodes && state.pairingCodes[id].organizationId == organizationId &&
         state.pairingCodes[id].consumedAt.None? && state.pairingCodes[id].revokedAt.None? {
        state := state.(pairingCodes := state.pairingCodes[id := state.pairingCodes[id].(revokedAt := Some(at))]);
      }
    }
  }
}
