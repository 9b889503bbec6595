/**
 * Every operation keeps the invariant, moves credentials only forward, and never
 * rewrites the ledger.
 */
module TrustSteps {
  import opened Common
  import opened TrustModel
  import opened TrustInvariant

  // ---------------------------------------------------------------- forward movement

  /** The same credential, in the same or a later lifecycle state, with its time stamps kept. */
  ghost predicate Forward(c: Credential, d: Credential) {
    && d.id == c.id && d.credentialType == c.credentialType && d.organizationId == c.organizationId
    && d.employeeId == c.employeeId && d.deviceId == c.deviceId && d.requestId == c.requestId
    && d.rotatedFrom == c.rotatedFrom && d.expiresAt == c.expiresAt
    && Rank(c.lifecycle) <= Rank(d.lifecycle)
    && (c.revokedAt.Some? ==> d.revokedAt == c.revokedAt)
    && (c.consumedAt.Some? ==> d.consumedAt == c.consumedAt)
  }

  ghost predicate CredentialsForward(before: Credentials, after: Credentials) {
    && before.Keys <= after.Keys
    && (forall h {:trigger Forward(before[h], after[h])} :: h in before ==> Forward(before[h], after[h]))
  }

  ghost predicate IndexKept(before: map<Id, Id>, after: map<Id, Id>) {
    forall i :: i in before ==> i in after && after[i] == before[i]
  }

  ghost predicate LedgerKept(before: Ledger, after: Ledger) {
    forall k :: k in before ==> k in after && after[k] == before[k]
  }

  /** What every step guarantees about the credentials and the ledger it found. */
  ghost predicate Advances(s: State, t: State) {
    && CredentialsForward(s.credentials, t.credentials)
    && IndexKept(s.hashById, t.hashById)
    && LedgerKept(s.ledger, t.ledger)
  }

  // ---------------------------------------------------------------- what can be used without case analysis

  /** Changing only status and permissions leaves ownership as it was. */
  ghost predicate SameHousing(s: State, t: State) {
    && t.modes == s.modes && t.devicesByInstallation == s.devicesByInstallation
    && t.employees.Keys == s.employees.Keys && t.devices.Keys == s.devices.Keys
    && (forall e :: e in s.employees ==>
          t.employees[e].organizationId == s.employees[e].organizationId &&
            t.employees[e].deviceIds == s.employees[e].deviceIds)
    && (forall d :: d in s.devices ==>
          && t.devices[d].organizationId == s.devices[d].organizationId
          && t.devices[d].employeeId == s.devices[d].employeeId
          && t.devices[d].installationId == s.devices[d].installationId)
  }

  lemma HousingKept(s: State, t: State)
    requires SameHousing(s, t)
    requires Housed(s.employees, s.devices, s.modes) && Installed(s.devicesByInstallation, s.devices)
    ensures Housed(t.employees, t.devices, t.modes) && Installed(t.devicesByInstallation, t.devices)
    ensures Owned(t.credentials, s.devices) ==> Owned(t.credentials, t.devices)
  {
    forall d ensures DeviceHoused(t.employees, t.devices, t.modes, d) {
      assert DeviceHoused(s.employees, s.devices, s.modes, d);
    }
    forall e ensures ListsOwn(t.employees, t.devices, e) {
      assert ListsOwn(s.employees, s.devices, e);
    }
    forall k ensures LeadsHome(t.devicesByInstallation, t.devices, k) {
      assert LeadsHome(s.devicesByInstallation, s.devices, k);
    }
    forall h | h in t.credentials && OwnedBy(t.credentials[h], s.devices) ensures OwnedBy(t.credentials[h], t.devices) {
    }
  }

  /** Credentials that keep their keys, move forward and stay well formed keep the structure. */
  lemma SweepStructured(before: Credentials, after: Credentials, hashById: map<Id, Id>, devices: map<Id, Device>)
    requires Indexed(before, hashById) && Owned(before, devices) && WellShaped(before, hashById)
    requires CredentialsForward(before, after) && after.Keys == before.Keys
    requires forall h {:trigger Shaped(after[h])} :: h in after ==> Shaped(after[h])
    ensures Indexed(after, hashById) && Owned(after, devices) && WellShaped(after, hashById)
  {
    forall h ensures HashIndexed(after, hashById, h) {
      assert HashIndexed(before, hashById, h);
      assert h in before ==> Forward(before[h], after[h]);
    }
    forall i ensures IdIndexed(after, hashById, i) {
      assert IdIndexed(before, hashById, i);
      assert i in hashById ==> Forward(before[hashById[i]], after[hashById[i]]);
    }
    forall h | h in after ensures OwnedBy(after[h], devices) {
      assert OwnedBy(before[h], devices) && Forward(before[h], after[h]);
    }
    forall h ensures FitsIn(after, hashById, h) {
      if h in after {
        assert FitsIn(before, hashById, h) && Forward(before[h], after[h]) && Shaped(after[h]);
        if after[h].lifecycle == Pending {
          var parent := hashById[before[h].rotatedFrom.value];
          assert Forward(before[parent], after[parent]);
        }
      }
    }
  }

  /** Storing a new credential under an unused hash and an unused id keeps the structure. */
  lemma IssueStructured(before: Credentials, hashById: map<Id, Id>, devices: map<Id, Device>, h: Id, c: Credential)
    requires Indexed(before, hashById) && Owned(before, devices) && WellShaped(before, hashById)
    requires h !in before && c.id !in hashById
    requires OwnedBy(c, devices) && Shaped(c) && (c.lifecycle == Pending ==> Rooted(before, hashById, c))
    ensures Indexed(before[h := c], hashById[c.id := h]) && Owned(before[h := c], devices)
    ensures WellShaped(before[h := c], hashById[c.id := h])
    ensures CredentialsForward(before, before[h := c]) && IndexKept(hashById, hashById[c.id := h])
  {
    var after, index := before[h := c], hashById[c.id := h];
    forall g ensures HashIndexed(after, index, g) {
      assert HashIndexed(before, hashById, g);
    }
    forall i ensures IdIndexed(after, index, i) {
      assert IdIndexed(before, hashById, i);
    }
    forall g | g in after ensures OwnedBy(after[g], devices) {
      assert g != h ==> OwnedBy(before[g], devices);
    }
    forall g ensures FitsIn(after, index, g) {
      assert FitsIn(before, hashById, g);
      if g in before && before[g].lifecycle == Pending {
        assert Rooted(before, hashById, before[g]);
      }
    }
  }

  predicate StatusKept(before: Employee, after: Employee) {
    after.status == before.status || (before.status == Invited && after.status == Working)
  }

  /** Away from device `d` the step changed neither device nor consent, and employees only went to work. */
  ghost predicate Elsewhere(s: State, t: State, d: Id) {
    && (forall x :: x in s.devices && x != d ==> x in t.devices && t.devices[x] == s.devices[x])
    && (forall x :: x != d ==> (x in t.consents <==> x in s.consents))
    && (forall x :: x in s.consents && x != d ==> t.consents[x] == s.consents[x])
    && (forall e :: e in s.employees ==> e in t.employees && StatusKept(s.employees[e], t.employees[e]))
  }

  /** Every credential of another device is as it was. */
  ghost predicate CredentialsElsewhere(before: Credentials, after: Credentials, d: Id) {
    forall h :: h in after && after[h].deviceId != d ==> h in before && after[h] == before[h]
  }

  /** A step on one device keeps what usable and frozen credentials of the others imply. */
  lemma TrustedElsewhere(s: State, t: State, d: Id)
    requires Trusted(s) && Elsewhere(s, t, d) && CredentialsElsewhere(s.credentials, t.credentials, d)
    ensures forall h {:trigger Backed(t.credentials[h], t.employees, t.devices, t.consents)} ::
              h in t.credentials && Usable(t.credentials[h]) && t.credentials[h].deviceId != d ==>
              Backed(t.credentials[h], t.employees, t.devices, t.consents)
    ensures forall h {:trigger OutOfService(t.credentials[h], t.employees, t.devices)} ::
              h in t.credentials && Frozen(t.credentials[h]) && t.credentials[h].deviceId != d ==>
              OutOfService(t.credentials[h], t.employees, t.devices)
  {
    forall h | h in t.credentials && Usable(t.credentials[h]) && t.credentials[h].deviceId != d
      ensures Backed(t.credentials[h], t.employees, t.devices, t.consents)
    {
      assert Backed(s.credentials[h], s.employees, s.devices, s.consents);
    }
    forall h | h in t.credentials && Frozen(t.credentials[h]) && t.credentials[h].deviceId != d
      ensures OutOfService(t.credentials[h], t.employees, t.devices)
    {
      assert OutOfService(s.credentials[h], s.employees, s.devices);
    }
  }

  /** A credential of the device after the step: it is not frozen, and only `u` is usable, and backed. */
  ghost predicate SettledAt(t: State, d: Id, u: Option<Id>, h: Id) {
    h in t.credentials && t.credentials[h].deviceId == d ==>
      && !Frozen(t.credentials[h])
      && (Usable(t.credentials[h]) ==> u == Some(h) && Backed(t.credentials[h], t.employees, t.devices, t.consents))
  }

  /** A step on one device that settles its credentials keeps trust. */
  lemma TrustedKept(s: State, t: State, d: Id, u: Option<Id>)
    requires Trusted(s) && Elsewhere(s, t, d) && CredentialsElsewhere(s.credentials, t.credentials, d)
    requires forall h {:trigger SettledAt(t, d, u, h)} :: SettledAt(t, d, u, h)
    ensures Trusted(t)
  {
    TrustedElsewhere(s, t, d);
    forall h | h in t.credentials && Usable(t.credentials[h])
      ensures Backed(t.credentials[h], t.employees, t.devices, t.consents)
    {
      assert SettledAt(t, d, u, h);
    }
    forall h | h in t.credentials && Frozen(t.credentials[h])
      ensures OutOfService(t.credentials[h], t.employees, t.devices)
    {
      assert SettledAt(t, d, u, h);
    }
    forall g, h | g in t.credentials && h in t.credentials && Usable(t.credentials[g]) && Usable(t.credentials[h]) &&
                  t.credentials[g].deviceId == t.credentials[h].deviceId
      ensures g == h
    {
      assert SettledAt(t, d, u, g) && SettledAt(t, d, u, h);
      if t.credentials[g].deviceId != d {
        assert Usable(s.credentials[g]) && Usable(s.credentials[h]);
      }
    }
  }

  /** The ledger's entries stay backed while credentials move forward. */
  lemma EntriesKept(ledger: Ledger, before: Credentials, hashBefore: map<Id, Id>, after: Credentials,
                    hashAfter: map<Id, Id>)
    requires Recorded(ledger, before, hashBefore)
    requires CredentialsForward(before, after) && IndexKept(hashBefore, hashAfter)
    requires WellShaped(after, hashAfter)
    ensures Recorded(ledger, after, hashAfter)
    ensures LinearRotations(ledger, before, hashBefore) ==> LinearRotations(ledger, after, hashAfter)
  {
    forall k | k in ledger
      ensures EntryBacked(k, ledger[k], after, hashAfter)
      ensures Replaced(ledger[k], after, hashAfter) == Replaced(ledger[k], before, hashBefore)
    {
      assert EntryBacked(k, ledger[k], before, hashBefore);
      var h := hashBefore[ledger[k].credentialId];
      assert Forward(before[h], after[h]);
      assert FitsIn(after, hashAfter, h);
      if k.1 == OpPrepare {
        var g := ledger[k].proposedHash.value;
        assert Forward(before[g], after[g]);
      }
      if k.1 == OpConfirm {
        var g := hashBefore[before[h].rotatedFrom.value];
        assert Forward(before[g], after[g]);
      }
    }
  }

  /** One new ledger entry, backed by the credentials as they are after the step. */
  lemma ChronicledKept(s: State, t: State, k: (Id, Operation, Id), e: Entry)
    requires Chronicled(s) && k !in s.ledger && t.ledger == s.ledger[k := e]
    requires CredentialsForward(s.credentials, t.credentials) && IndexKept(s.hashById, t.hashById)
    requires WellShaped(t.credentials, t.hashById)
    requires EntryBacked(k, e, t.credentials, t.hashById)
    requires k.1 == OpConfirm ==> forall j :: j in s.ledger && j.1 == OpConfirm ==>
      Replaced(s.ledger[j], s.credentials, s.hashById) != Replaced(e, t.credentials, t.hashById)
    ensures Chronicled(t) && LedgerKept(s.ledger, t.ledger)
  {
    EntriesKept(s.ledger, s.credentials, s.hashById, t.credentials, t.hashById);
    forall j | j in s.ledger
      ensures Replaced(s.ledger[j], t.credentials, t.hashById) == Replaced(s.ledger[j], s.credentials, s.hashById)
    {
      assert EntryBacked(j, s.ledger[j], s.credentials, s.hashById);
      assert Forward(s.credentials[s.hashById[s.ledger[j].credentialId]],
                     t.credentials[s.hashById[s.ledger[j].credentialId]]);
    }
  }

  // ---------------------------------------------------------------- the session operations

  /** The credential found for a context is the usable one of its device. */
  ghost predicate Holds(s: State, ctx: Context, t: CredentialType, h: Id) {
    && ctx.credentialId in s.hashById && s.hashById[ctx.credentialId] == h
    && h in s.credentials && MatchesContext(s.credentials[h], ctx, t) && Usable(s.credentials[h])
    && ctx.deviceId in s.devices && ctx.employeeId in s.employees
  }

  /** No other credential of the device is usable, and none is frozen. */
  lemma OnlyUsable(s: State, h: Id, g: Id)
    requires Structured(s) && Trusted(s) && h in s.credentials && Usable(s.credentials[h])
    requires g in s.credentials && s.credentials[g].deviceId == s.credentials[h].deviceId
    ensures !Frozen(s.credentials[g]) && (Usable(s.credentials[g]) ==> g == h)
    ensures Backed(s.credentials[h], s.employees, s.devices, s.consents)
  {
    assert Backed(s.credentials[h], s.employees, s.devices, s.consents);
    assert Frozen(s.credentials[g]) ==> OutOfService(s.credentials[g], s.employees, s.devices);
  }

  ghost predicate NewSession(s: State, n: NewCredential, l: Lifecycle) {
    n.id !in s.hashById && n.tokenHash !in s.credentials && n.credentialType == Session && n.lifecycle == l
  }

  function ConsumedAt(s: State, b: Id, at: Time): Credentials
    requires b in s.credentials
  {
    s.credentials[b := s.credentials[b].(consumedAt := Some(at), lifecycle := Consumed)]
  }

  lemma ActivateStructured(s: State, ctx: Context, b: Id, c: ConsentInput, n: NewCredential, f: Id, at: Time)
    requires Structured(s) && Holds(s, ctx, Bootstrap, b) && NewSession(s, n, Active) && ctx.mode in s.policies
    ensures var t := ActivateEffect(s, ctx, b, c, n, f, at);
            Structured(t) && CredentialsForward(s.credentials, t.credentials) && IndexKept(s.hashById, t.hashById)
  {
    var t := ActivateEffect(s, ctx, b, c, n, f, at);
    var consumed := ConsumedAt(s, b, at);
    forall h | h in consumed ensures Shaped(consumed[h]) {
      assert FitsIn(s.credentials, s.hashById, h);
    }
    SweepStructured(s.credentials, consumed, s.hashById, s.devices);
    assert OwnedBy(s.credentials[b], s.devices);
    IssueStructured(consumed, s.hashById, s.devices, n.tokenHash,
                    StoredCredential(n, ctx.organizationId, ctx.employeeId, ctx.deviceId));
    HousingKept(s, t);
    forall h | h in s.credentials ensures Forward(s.credentials[h], t.credentials[h]) {
      assert Forward(s.credentials[h], consumed[h]) && Forward(consumed[h], t.credentials[h]);
    }
  }

  lemma ActivateTrusted(s: State, ctx: Context, b: Id, c: ConsentInput, n: NewCredential, f: Id, at: Time)
    requires Structured(s) && Trusted(s) && Holds(s, ctx, Bootstrap, b) && NewSession(s, n, Active)
    requires ctx.mode in s.policies
    ensures Trusted(ActivateEffect(s, ctx, b, c, n, f, at))
  {
    var t := ActivateEffect(s, ctx, b, c, n, f, at);
    forall h ensures SettledAt(t, ctx.deviceId, Some(n.tokenHash), h) {
      if h in s.credentials && s.credentials[h].deviceId == ctx.deviceId {
        OnlyUsable(s, b, h);
      }
    }
    OnlyUsable(s, b, b);
    TrustedKept(s, t, ctx.deviceId, Some(n.tokenHash));
  }

  lemma ActivateKeeps(s: State, ctx: Context, b: Id, c: ConsentInput, n: NewCredential, f: Id, at: Time)
    requires Valid(s) && Holds(s, ctx, Bootstrap, b) && NewSession(s, n, Active) && ctx.mode in s.policies
    requires (ctx.deviceId, OpActivate, c.requestId) !in s.ledger
    ensures var t := ActivateEffect(s, ctx, b, c, n, f, at); Valid(t) && Advances(s, t)
  {
    var t := ActivateEffect(s, ctx, b, c, n, f, at);
    ActivateStructured(s, ctx, b, c, n, f, at);
    ActivateTrusted(s, ctx, b, c, n, f, at);
    var k := (ctx.deviceId, OpActivate, c.requestId);
    ChronicledKept(s, t, k, t.ledger[k]);
  }

  lemma PrepareStructured(s: State, ctx: Context, h: Id, n: NewCredential, rid: Id, f: Id, at: Time)
    requires Structured(s) && Holds(s, ctx, Session, h) && NewSession(s, n, Pending)
    requires n.rotatedFrom == Some(ctx.credentialId)
    ensures var t := PrepareEffect(s, ctx, n, rid, f, at);
            Structured(t) && CredentialsForward(s.credentials, t.credentials) && IndexKept(s.hashById, t.hashById)
  {
    assert OwnedBy(s.credentials[h], s.devices);
    IssueStructured(s.credentials, s.hashById, s.devices, n.tokenHash,
                    StoredCredential(n, ctx.organizationId, ctx.employeeId, ctx.deviceId));
  }

  lemma PrepareTrusted(s: State, ctx: Context, h: Id, n: NewCredential, rid: Id, f: Id, at: Time)
    requires Structured(s) && Trusted(s) && Holds(s, ctx, Session, h) && NewSession(s, n, Pending)
    ensures Trusted(PrepareEffect(s, ctx, n, rid, f, at))
  {
    var t := PrepareEffect(s, ctx, n, rid, f, at);
    forall g ensures SettledAt(t, ctx.deviceId, Some(h), g) {
      if g in s.credentials && s.credentials[g].deviceId == ctx.deviceId {
        OnlyUsable(s, h, g);
      }
    }
    TrustedKept(s, t, ctx.deviceId, Some(h));
  }

  lemma PrepareKeeps(s: State, ctx: Context, h: Id, n: NewCredential, rid: Id, f: Id, at: Time)
    requires Valid(s) && Holds(s, ctx, Session, h) && NewSession(s, n, Pending)
    requires n.rotatedFrom == Some(ctx.credentialId) && (ctx.deviceId, OpPrepare, rid) !in s.ledger
    ensures var t := PrepareEffect(s, ctx, n, rid, f, at); Valid(t) && Advances(s, t)
  {
    var t := PrepareEffect(s, ctx, n, rid, f, at);
    PrepareStructured(s, ctx, h, n, rid, f, at);
    PrepareTrusted(s, ctx, h, n, rid, f, at);
    var k := (ctx.deviceId, OpPrepare, rid);
    ChronicledKept(s, t, k, t.ledger[k]);
  }

  lemma ReconsentTrusted(s: State, ctx: Context, h: Id, c: ConsentInput, f: Id, at: Time)
    requires Structured(s) && Trusted(s) && Holds(s, ctx, Session, h) && ctx.mode in s.policies
    ensures Trusted(ReconsentEffect(s, ctx, c, f, at))
  {
    var t := ReconsentEffect(s, ctx, c, f, at);
    forall g ensures SettledAt(t, ctx.deviceId, Some(h), g) {
      if g in s.credentials && s.credentials[g].deviceId == ctx.deviceId {
        OnlyUsable(s, h, g);
      }
    }
    TrustedKept(s, t, ctx.deviceId, Some(h));
  }

  lemma ReconsentKeeps(s: State, ctx: Context, h: Id, c: ConsentInput, f: Id, at: Time)
    requires Valid(s) && Holds(s, ctx, Session, h) && ctx.mode in s.policies
    requires (ctx.deviceId, OpReconsent, c.requestId) !in s.ledger
    ensures var t := ReconsentEffect(s, ctx, c, f, at); Valid(t) && Advances(s, t)
  {
    var t := ReconsentEffect(s, ctx, c, f, at);
    HousingKept(s, t);
    ReconsentTrusted(s, ctx, h, c, f, at);
    var k := (ctx.deviceId, OpReconsent, c.requestId);
    ChronicledKept(s, t, k, t.ledger[k]);
  }

  /** A pending credential and the usable session it was prepared from. */
  ghost predicate Rotates(s: State, p: Id, o: Id) {
    && p in s.credentials && o in s.credentials
    && s.credentials[p].lifecycle == Pending && Usable(s.credentials[o])
    && s.credentials[p].rotatedFrom == Some(s.credentials[o].id)
  }

  lemma RotatesOnDevice(s: State, p: Id, o: Id)
    requires Structured(s) && Rotates(s, p, o)
    ensures Rooted(s.credentials, s.hashById, s.credentials[p]) &&
        s.credentials[o].deviceId == s.credentials[p].deviceId
    ensures s.credentials[o].credentialType == Session && s.credentials[p].credentialType == Session
    ensures s.hashById[s.credentials[o].id] == o && s.credentials[p].id in s.hashById &&
        s.hashById[s.credentials[p].id] == p
    ensures s.credentials[p].consumedAt.None?
  {
    assert FitsIn(s.credentials, s.hashById, p);
    assert HashIndexed(s.credentials, s.hashById, o) && HashIndexed(s.credentials, s.hashById, p);
  }

  lemma ConfirmStructured(s: State, d: Id, p: Id, o: Id, rid: Id, f: Id, at: Time)
    requires Structured(s) && Rotates(s, p, o)
    ensures var t := ConfirmEffect(s, d, p, o, rid, f, at);
            Structured(t) && CredentialsForward(s.credentials, t.credentials)
  {
    var t := ConfirmEffect(s, d, p, o, rid, f, at);
    forall h | h in t.credentials ensures Shaped(t.credentials[h]) {
      assert FitsIn(s.credentials, s.hashById, h);
    }
    SweepStructured(s.credentials, t.credentials, s.hashById, s.devices);
  }

  lemma ConfirmTrusted(s: State, d: Id, p: Id, o: Id, rid: Id, f: Id, at: Time)
    requires Structured(s) && Trusted(s) && Rotates(s, p, o) && s.credentials[p].deviceId == d
    ensures Trusted(ConfirmEffect(s, d, p, o, rid, f, at))
  {
    var t := ConfirmEffect(s, d, p, o, rid, f, at);
    RotatesOnDevice(s, p, o);
    assert OwnedBy(s.credentials[p], s.devices) && OwnedBy(s.credentials[o], s.devices);
    forall g ensures SettledAt(t, d, Some(p), g) {
      if g in s.credentials && s.credentials[g].deviceId == d {
        OnlyUsable(s, o, g);
      }
    }
    TrustedKept(s, t, d, Some(p));
  }

  lemma ConfirmKeeps(s: State, d: Id, p: Id, o: Id, rid: Id, f: Id, at: Time)
    requires Valid(s) && Rotates(s, p, o) && s.credentials[p].deviceId == d && (d, OpConfirm, rid) !in s.ledger
    ensures var t := ConfirmEffect(s, d, p, o, rid, f, at); Valid(t) && Advances(s, t)
  {
    var t := ConfirmEffect(s, d, p, o, rid, f, at);
    ConfirmStructured(s, d, p, o, rid, f, at);
    ConfirmTrusted(s, d, p, o, rid, f, at);
    RotatesOnDevice(s, p, o);
    var k := (d, OpConfirm, rid);
    forall j | j in s.ledger && j.1 == OpConfirm
      ensures Replaced(s.ledger[j], s.credentials, s.hashById) != Replaced(t.ledger[k], t.credentials, t.hashById)
    {
      // The session replaced under an earlier entry is revoked, and `o` is not.
      assert EntryBacked(j, s.ledger[j], s.credentials, s.hashById);
    }
    ChronicledKept(s, t, k, t.ledger[k]);
  }

  // ---------------------------------------------------------------- revocation and suspension

  lemma SelfRevokeStructured(s: State, ctx: Context, h: Id, rid: Id, f: Id, at: Time)
    requires Structured(s) && Holds(s, ctx, Session, h) && ctx.deviceId in s.consents
    ensures var t := SelfRevokeEffect(s, ctx, rid, f, at);
            Structured(t) && CredentialsForward(s.credentials, t.credentials)
  {
    var t := SelfRevokeEffect(s, ctx, rid, f, at);
    forall g | g in t.credentials ensures Shaped(t.credentials[g]) {
      assert FitsIn(s.credentials, s.hashById, g);
    }
    SweepStructured(s.credentials, t.credentials, s.hashById, s.devices);
    HousingKept(s, t);
  }

  lemma SelfRevokeTrusted(s: State, ctx: Context, h: Id, rid: Id, f: Id, at: Time)
    requires Structured(s) && Trusted(s) && Holds(s, ctx, Session, h) && ctx.deviceId in s.consents
    ensures Trusted(SelfRevokeEffect(s, ctx, rid, f, at))
  {
    var t := SelfRevokeEffect(s, ctx, rid, f, at);
    forall g ensures SettledAt(t, ctx.deviceId, None, g) {
      if g in s.credentials && s.credentials[g].deviceId == ctx.deviceId {
        OnlyUsable(s, h, g);
      }
    }
    TrustedKept(s, t, ctx.deviceId, None);
  }

  lemma SelfRevokeKeeps(s: State, ctx: Context, h: Id, rid: Id, f: Id, at: Time)
    requires Valid(s) && Holds(s, ctx, Session, h) && ctx.deviceId in s.consents
    requires (ctx.deviceId, OpRevoke, rid) !in s.ledger
    ensures var t := SelfRevokeEffect(s, ctx, rid, f, at); Valid(t) && Advances(s, t)
  {
    var t := SelfRevokeEffect(s, ctx, rid, f, at);
    SelfRevokeStructured(s, ctx, h, rid, f, at);
    SelfRevokeTrusted(s, ctx, h, rid, f, at);
    var k := (ctx.deviceId, OpRevoke, rid);
    ChronicledKept(s, t, k, t.ledger[k]);
  }

  lemma NoneFrozen(s: State, d: Id, h: Id)
    requires Trusted(s) && d in s.devices && s.devices[d].status != DeviceRevoked
    requires h in s.credentials && s.credentials[h].deviceId == d
    ensures !Frozen(s.credentials[h])
  {
    assert Frozen(s.credentials[h]) ==> OutOfService(s.credentials[h], s.employees, s.devices);
  }

  lemma AdminRevokeStructured(s: State, a: AdminInput, at: Time)
    requires Structured(s) && Trusted(s) && a.organizationId in s.audits
    requires a.deviceId in s.devices && s.devices[a.deviceId].status != DeviceRevoked
    ensures var t := AdminRevokeEffect(s, a, at); Structured(t) && CredentialsForward(s.credentials, t.credentials)
  {
    var t := AdminRevokeEffect(s, a, at);
    forall h | h in s.credentials
      ensures Shaped(t.credentials[h]) && Forward(s.credentials[h], t.credentials[h])
    {
      assert FitsIn(s.credentials, s.hashById, h);
      if s.credentials[h].deviceId == a.deviceId {
        NoneFrozen(s, a.deviceId, h);
      }
    }
    SweepStructured(s.credentials, t.credentials, s.hashById, s.devices);
    HousingKept(s, t);
  }

  lemma AdminRevokeTrusted(s: State, a: AdminInput, at: Time)
    requires Structured(s) && Trusted(s) && a.organizationId in s.audits
    requires a.deviceId in s.devices && s.devices[a.deviceId].status != DeviceRevoked
    ensures Trusted(AdminRevokeEffect(s, a, at))
  {
    var t := AdminRevokeEffect(s, a, at);
    forall g ensures SettledAt(t, a.deviceId, None, g) {
      if g in s.credentials && s.credentials[g].deviceId == a.deviceId {
        NoneFrozen(s, a.deviceId, g);
      }
    }
    TrustedKept(s, t, a.deviceId, None);
  }

  lemma AdminRevokeKeeps(s: State, a: AdminInput, at: Time)
    requires Valid(s) && a.organizationId in s.audits
    requires a.deviceId in s.devices && s.devices[a.deviceId].status != DeviceRevoked
    ensures var t := AdminRevokeEffect(s, a, at); Valid(t) && Advances(s, t)
  {
    var t := AdminRevokeEffect(s, a, at);
    AdminRevokeStructured(s, a, at);
    AdminRevokeTrusted(s, a, at);
    EntriesKept(s.ledger, s.credentials, s.hashById, t.credentials, t.hashById);
  }

  lemma SuspendStructured(s: State, o: Id, e: Id, at: Time)
    requires Structured(s) && e in s.employees
    ensures var t := SuspendEffect(s, o, e, at); Structured(t) && CredentialsForward(s.credentials, t.credentials)
  {
    var t := SuspendEffect(s, o, e, at);
    forall h | h in t.credentials ensures Shaped(t.credentials[h]) {
      assert FitsIn(s.credentials, s.hashById, h);
    }
    SweepStructured(s.credentials, t.credentials, s.hashById, s.devices);
    HousingKept(s, t);
  }

  /** Suspension reaches exactly the devices of the employee. */
  lemma ReachedByOwner(s: State, o: Id, e: Id, d: Id)
    requires Structured(s) && e in s.employees && s.employees[e].organizationId == o && d in s.devices
    ensures d in SuspendedDevices(s, o, e) <==> s.devices[d].employeeId == e
  {
    assert DeviceHoused(s.employees, s.devices, s.modes, d);
    assert ListsOwn(s.employees, s.devices, e);
  }

  lemma SuspendTrusted(s: State, o: Id, e: Id, at: Time)
    requires Structured(s) && Trusted(s) && e in s.employees && s.employees[e].organizationId == o
    ensures Trusted(SuspendEffect(s, o, e, at))
  {
    var t := SuspendEffect(s, o, e, at);
    forall h | h in t.credentials
      ensures Usable(t.credentials[h]) ==> Backed(t.credentials[h], t.employees, t.devices, t.consents)
      ensures Frozen(t.credentials[h]) ==> OutOfService(t.credentials[h], t.employees, t.devices)
      ensures Usable(t.credentials[h]) ==> Usable(s.credentials[h])
    {
      var c := s.credentials[h];
      assert OwnedBy(c, s.devices);
      ReachedByOwner(s, o, e, c.deviceId);
      assert Usable(c) ==> Backed(c, s.employees, s.devices, s.consents);
      assert Frozen(c) ==> OutOfService(c, s.employees, s.devices);
    }
  }

  lemma SuspendKeeps(s: State, o: Id, e: Id, at: Time)
    requires Valid(s) && e in s.employees && s.employees[e].organizationId == o
    ensures var t := SuspendEffect(s, o, e, at); Valid(t) && Advances(s, t)
  {
    var t := SuspendEffect(s, o, e, at);
    SuspendStructured(s, o, e, at);
    SuspendTrusted(s, o, e, at);
    EntriesKept(s.ledger, s.credentials, s.hashById, t.credentials, t.hashById);
  }

  // ---------------------------------------------------------------- pairing

  /** What the tests of a redemption establish. */
  ghost predicate PairFacts(s: State, r: RedeemInput) {
    && CodeKnown(s, r.codeHash)
    && var code := CodeOf(s, r.codeHash);
       var existing := ExistingDevice(s, code.organizationId, r.installationId);
       && code.employeeId in s.employees
       && s.employees[code.employeeId].organizationId == code.organizationId
       && s.employees[code.employeeId].status in {Invited, Working}
       && (existing.Some? ==> s.devices[existing.value].employeeId == code.employeeId)
  }

  ghost predicate FreshPairing(s: State, r: RedeemInput) {
    Proposed(s, r) && r.bootstrap.tokenHash !in s.credentials
  }

  /** A redemption, map by map: `d` is the device paired, `device` its record afterwards. */
  ghost predicate Pairs(s: State, t: State, n: NewCredential, o: Id, e: Id, i: Id, d: Id, device: Device, m: Mode,
                        at: Time)
  {
    && n.credentialType == Bootstrap && n.lifecycle == Active && n.tokenHash !in s.credentials && n.id !in s.hashById
    && e in s.employees && s.employees[e].organizationId == o && s.employees[e].status in {Invited, Working}
    && device.organizationId == o && device.employeeId == e && device.installationId == i &&
       device.status == DevicePending
    && (d in s.devices ==>
          s.devices[d].organizationId == o && s.devices[d].employeeId == e && s.devices[d].installationId == i)
    && t.devices == s.devices[d := device]
    && t.modes == s.modes[d := m]
    && t.devicesByInstallation == s.devicesByInstallation[(o, i) := d]
    && t.employees == s.employees[e := AddDevice(s.employees[e], d)]
    && t.consents == s.consents - {d}
    && t.credentials == RevokeAll(s.credentials, d, at)[n.tokenHash := StoredCredential(n, o, e, d)]
    && t.hashById == s.hashById[n.id := n.tokenHash]
    && t.ledger == s.ledger
  }

  lemma PairEffectPairs(s: State, r: RedeemInput, at: Time)
    requires Structured(s) && FreshPairing(s, r) && PairFacts(s, r)
    ensures var code := CodeOf(s, r.codeHash);
            Pairs(s, PairEffect(s, r, at), r.bootstrap, code.organizationId, code.employeeId, r.installationId,
                  RedeemDevice(s, r, code.organizationId), PairedDevice(s, r, code), code.mode, at)
  {
    var code := CodeOf(s, r.codeHash);
    var d := RedeemDevice(s, r, code.organizationId);
    var t := PairEffect(s, r, at);
    assert LeadsHome(s.devicesByInstallation, s.devices, (code.organizationId, r.installationId));
    if d !in s.devices {
      // A new device: nothing is stored for it yet, so the sweep changes nothing.
      forall h | h in s.credentials ensures RevokeOne(s.credentials[h], d, at) == s.credentials[h] {
        assert OwnedBy(s.credentials[h], s.devices);
      }
      assert RevokeAll(s.credentials, d, at) == s.credentials;
      assert s.consents - {d} == s.consents;
    }
  }

  lemma PairsHoused(s: State, t: State, n: NewCredential, o: Id, e: Id, i: Id, d: Id, device: Device, m: Mode, at: Time)
    requires Structured(s) && Pairs(s, t, n, o, e, i, d, device, m, at)
    ensures Housed(t.employees, t.devices, t.modes) && Installed(t.devicesByInstallation, t.devices)
  {
    forall x ensures DeviceHoused(t.employees, t.devices, t.modes, x) {
      assert DeviceHoused(s.employees, s.devices, s.modes, x);
    }
    forall x ensures ListsOwn(t.employees, t.devices, x) {
      assert ListsOwn(s.employees, s.devices, x);
    }
    forall k ensures LeadsHome(t.devicesByInstallation, t.devices, k) {
      assert LeadsHome(s.devicesByInstallation, s.devices, k);
    }
  }

  lemma PairsSwept(s: State, t: State, n: NewCredential, o: Id, e: Id, i: Id, d: Id, device: Device, m: Mode, at: Time)
    requires Structured(s) && Pairs(s, t, n, o, e, i, d, device, m, at)
    ensures var swept := RevokeAll(s.credentials, d, at);
            && Indexed(swept, s.hashById) && Owned(swept, t.devices) && WellShaped(swept, s.hashById)
            && CredentialsForward(s.credentials, swept)
  {
    var swept := RevokeAll(s.credentials, d, at);
    forall h | h in swept ensures Shaped(swept[h]) && Forward(s.credentials[h], swept[h]) {
      assert FitsIn(s.credentials, s.hashById, h);
    }
    SweepStructured(s.credentials, swept, s.hashById, s.devices);
    forall h | h in swept ensures OwnedBy(swept[h], t.devices) {
      assert OwnedBy(swept[h], s.devices);
    }
  }

  lemma PairsStructured(s: State, t: State, n: NewCredential, o: Id, e: Id, i: Id, d: Id, device: Device, m: Mode,
                        at: Time)
    requires Structured(s) && Pairs(s, t, n, o, e, i, d, device, m, at)
    ensures Structured(t) && CredentialsForward(s.credentials, t.credentials) && IndexKept(s.hashById, t.hashById)
  {
    var swept := RevokeAll(s.credentials, d, at);
    PairsSwept(s, t, n, o, e, i, d, device, m, at);
    IssueStructured(swept, s.hashById, t.devices, n.tokenHash, StoredCredential(n, o, e, d));
    forall h | h in s.credentials ensures Forward(s.credentials[h], t.credentials[h]) {
      assert Forward(s.credentials[h], swept[h]) && Forward(swept[h], t.credentials[h]);
    }
    PairsHoused(s, t, n, o, e, i, d, device, m, at);
  }

  lemma PairsTrusted(s: State, t: State, n: NewCredential, o: Id, e: Id, i: Id, d: Id, device: Device, m: Mode,
                     at: Time)
    requires Structured(s) && Trusted(s) && Pairs(s, t, n, o, e, i, d, device, m, at)
    ensures Trusted(t)
  {
    forall h ensures SettledAt(t, d, Some(n.tokenHash), h) {
      if h in s.credentials && s.credentials[h].deviceId == d {
        assert OwnedBy(s.credentials[h], s.devices);
        assert Frozen(s.credentials[h]) ==> OutOfService(s.credentials[h], s.employees, s.devices);
      }
    }
    TrustedKept(s, t, d, Some(n.tokenHash));
  }

  lemma PairKeeps(s: State, r: RedeemInput, at: Time)
    requires Valid(s) && FreshPairing(s, r) && PairFacts(s, r)
    ensures var t := PairEffect(s, r, at); Valid(t) && Advances(s, t)
  {
    var t := PairEffect(s, r, at);
    var code := CodeOf(s, r.codeHash);
    var d, device := RedeemDevice(s, r, code.organizationId), PairedDevice(s, r, code);
    PairEffectPairs(s, r, at);
    PairsStructured(s, t, r.bootstrap, code.organizationId, code.employeeId, r.installationId, d, device, code.mode,
                    at);
    PairsTrusted(s, t, r.bootstrap, code.organizationId, code.employeeId, r.installationId, d, device, code.mode, at);
    EntriesKept(s.ledger, s.credentials, s.hashById, t.credentials, t.hashById);
  }
}
