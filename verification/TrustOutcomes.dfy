/**
 * What each operation of the trust protocol answers and leaves behind, told in the fields of the records: when a
 * request is answered and when it is refused, and which records are changed in which way.
 */
module TrustOutcomes {
  import opened Common
  import opened TrustModel
  import opened TrustInvariant
  import opened TrustSteps
  import opened TrustRuns
  import opened TrustSessions

  // ---------------------------------------------------------------- pairing

  /** The employee may be paired with a device: of the organization, and neither paused nor deactivated. */
  predicate MayPair(s: State, o: Id, e: Id) {
    e in s.employees && s.employees[e].organizationId == o &&
    s.employees[e].status != Paused && s.employees[e].status != Deactivated
  }

  /** The installation belongs to a device of another employee. */
  predicate TakenByOther(s: State, o: Id, installation: Id, e: Id) {
    (o, installation) in s.devicesByInstallation && s.devicesByInstallation[(o, installation)] in s.devices &&
    s.devices[s.devicesByInstallation[(o, installation)]].employeeId != e
  }

  /** A first redemption pairs a device exactly for a live code, used as it was issued; each refusal has its cause. */
  lemma RedeemAnswers(s: State, r: RedeemInput, at: Time)
    requires r.requestId !in s.redemptions
    requires r.codeHash in s.pairingIdByHash && s.pairingIdByHash[r.codeHash] in s.pairingCodes
    ensures var code := s.pairingCodes[s.pairingIdByHash[r.codeHash]];
            var answer := Redeem(s, r, at).1;
            var live := code.revokedAt.None? && code.consumedAt.None? && at < code.expiresAt;
            var fits := MayPair(s, code.organizationId, code.employeeId) && code.mode == r.mode;
            var taken := TakenByOther(s, code.organizationId, r.installationId, code.employeeId);
            (answer.Redeemed? <==> live && fits && !taken) &&
            (answer.InstallationConflict? <==> live && fits && taken) &&
            (answer.NotFound? <==> live && !fits) &&
            (answer.CodeRevoked? <==> code.revokedAt.Some?) &&
            (answer.CodeConsumed? <==> code.revokedAt.None? && code.consumedAt.Some?) &&
            (answer.CodeExpired? <==> code.revokedAt.None? && code.consumedAt.None? && code.expiresAt <= at)
  {
    hide PairEffect;
  }

  /** What a pairing writes: the device as registered, its mode and employee, the used code, and no consent. */
  lemma RedeemWrites(s: State, r: RedeemInput, at: Time)
    requires Valid(s) && NewPairing(s, r, at) && Fresh(s, DoRedeem(r, at))
    ensures var id := s.pairingIdByHash[r.codeHash];
            var code := s.pairingCodes[id];
            var (t, answer) := Redeem(s, r, at);
            var d := answer.deviceId;
            var known := (code.organizationId, r.installationId) in s.devicesByInstallation;
            d == (if known then s.devicesByInstallation[(code.organizationId, r.installationId)] else r.newDeviceId) &&
            d in t.devices && answer.device == t.devices[d] &&
            t.devices == s.devices[d := Device(code.organizationId, code.employeeId, r.installationId, DevicePending,
                                               r.permissions, None)] &&
            t.devicesByInstallation == s.devicesByInstallation[(code.organizationId, r.installationId) := d] &&
            t.modes == s.modes[d := code.mode] && t.consents == s.consents - {d} &&
            t.pairingCodes == s.pairingCodes[id := code.(consumedAt := Some(at))] &&
            code.employeeId in t.employees && d in t.employees[code.employeeId].deviceIds
  {
    var code := CodeOf(s, r.codeHash);
    RefusedOrPaired(s, r, at);
    PairEffectPairs(s, r, at);
    assert LeadsHome(s.devicesByInstallation, s.devices, (code.organizationId, r.installationId));
    hide Valid, RedeemRefusal, PairedCredentials;
  }

  /** Nothing that the device had before stays usable, and the credentials of other devices are left alone. */
  lemma RedeemSpends(s: State, r: RedeemInput, at: Time, h: Id)
    requires Valid(s) && NewPairing(s, r, at) && Fresh(s, DoRedeem(r, at)) && h in s.credentials
    ensures var (t, answer) := Redeem(s, r, at);
            h in t.credentials &&
            (s.credentials[h].deviceId == answer.deviceId ==> t.credentials[h].revokedAt.Some?) &&
            (s.credentials[h].deviceId != answer.deviceId ==> t.credentials[h] == s.credentials[h])
  {
    RefusedOrPaired(s, r, at);
    PairEffectPairs(s, r, at);
    hide Valid, RedeemRefusal;
  }

  /** A redemption that is on record is answered again for the same code, payload and installation, and no other. */
  lemma RecordedRedemption(s: State, r: RedeemInput, at: Time)
    requires r.requestId in s.redemptions && s.redemptions[r.requestId].result.Redeemed?
    ensures var prior := s.redemptions[r.requestId];
            var same := prior.codeHash == r.codeHash && prior.fingerprint == r.fingerprint &&
                        prior.result.device.installationId == r.installationId;
            Redeem(s, r, at) == (s, if same then prior.result.(replayed := true) else PairingRequestConflict)
  {
  }

  /** A revoked code pairs no more. */
  lemma RevokedCodeRefused(s: State, o: Id, id: Id, at: Time, r: RedeemInput, later: Time)
    requires id in s.pairingCodes && s.pairingCodes[id].organizationId == o
    requires s.pairingCodes[id].consumedAt.None? && s.pairingCodes[id].revokedAt.None?
    requires r.codeHash in s.pairingIdByHash && s.pairingIdByHash[r.codeHash] == id && r.requestId !in s.redemptions
    ensures var t := RevokePairingCode(s, o, id, at);
            t.pairingCodes == s.pairingCodes[id := s.pairingCodes[id].(revokedAt := Some(at))] &&
            Redeem(t, r, later).1 == CodeRevoked
  {
  }

  // ---------------------------------------------------------------- activation and renewal of consent

  /** The consent is at most fifteen minutes old and five ahead, and names the policy in force for the mode. */
  predicate ConsentFits(s: State, mode: Mode, c: ConsentInput, policy: Option<Policy>, at: Time) {
    && c.acceptedAt <= at + 300_000 && c.acceptedAt >= at - 900_000
    && mode in s.policies && policy == Some(s.policies[mode])
    && c.policy.id == s.policies[mode].id && c.policy.contentHash == s.policies[mode].contentHash
  }

  /** With an accepted bootstrap credential a first activation succeeds exactly for a new session and good consent. */
  lemma ActivateAnswers(s: State, b: Id, c: ConsentInput, n: NewCredential, f: Id, p: Option<Policy>, at: Time)
    requires Valid(s) && ResolveCredential(s, b, Bootstrap, at).Some?
    requires (s.credentials[b].deviceId, OpActivate, c.requestId) !in s.ledger
    ensures var ctx := ResolveCredential(s, b, Bootstrap, at).value;
            var answer := Activate(s, ctx, c, n, f, p, at).1;
            var proposed := n.credentialType == Session && n.lifecycle == Active && n.requestId == c.requestId &&
                            n.hexHash && n.tokenHash !in s.credentials;
            (answer.Reply? <==> proposed && ConsentFits(s, ctx.mode, c, p, at)) &&
            (answer.NoMatch? <==> !proposed) &&
            (answer.ConsentRequired? <==> proposed && !ConsentFits(s, ctx.mode, c, p, at))
  {
    hide ActivateEffect, Valid, TrustChecks;
  }

  /** What an activation writes and answers. */
  lemma ActivateWrites(s: State, ctx: Context, c: ConsentInput, n: NewCredential, f: Id, p: Option<Policy>, at: Time)
    requires Valid(s) && (ctx.deviceId, OpActivate, c.requestId) !in s.ledger
    requires Activate(s, ctx, c, n, f, p, at).1.Reply?
    ensures var (t, answer) := Activate(s, ctx, c, n, f, p, at);
            var d := ctx.deviceId;
            d in s.devices && ctx.employeeId in s.employees && ctx.mode in s.policies &&
            t.devices == s.devices[d := s.devices[d].(status := DeviceConnected, permissions := c.permissions)] &&
            t.employees == s.employees[ctx.employeeId := s.employees[ctx.employeeId].(status := Working)] &&
            t.consents == s.consents[d := Consent(s.policies[ctx.mode].id, s.policies[ctx.mode].contentHash,
                                                  c.permissions, c.acceptedAt, at, None)] &&
            answer == Reply(Activated(t.devices[d], n.expiresAt, s.policies[ctx.mode]), false) &&
            FindCurrent(s, ctx, Bootstrap, at).Some? &&
            var b := FindCurrent(s, ctx, Bootstrap, at).value;
            b in t.credentials && t.credentials[b].lifecycle == Consumed && t.credentials[b].consumedAt == Some(at)
  {
    CurrentHolds(s, ctx, Bootstrap, at);
    hide Valid, FindCurrent, ConsentAcceptable;
    AcceptedNames(s, ctx, c, p, at);
  }

  lemma AcceptedNames(s: State, ctx: Context, c: ConsentInput, p: Option<Policy>, at: Time)
    ensures ConsentAcceptable(s, ctx, c, p, at) <==> ConsentFits(s, ctx.mode, c, p, at)
  {
  }

  /** With an accepted session, a first renewal of consent succeeds exactly for fitting consent. */
  lemma ReconsentAnswers(s: State, h: Id, c: ConsentInput, f: Id, p: Option<Policy>, at: Time)
    requires Valid(s) && ResolveCredential(s, h, Session, at).Some?
    requires (s.credentials[h].deviceId, OpReconsent, c.requestId) !in s.ledger
    ensures var ctx := ResolveCredential(s, h, Session, at).value;
            var answer := Reconsent(s, ctx, c, f, p, at).1;
            (answer.Reply? <==> ConsentFits(s, ctx.mode, c, p, at)) &&
            (answer.ConsentRequired? <==> !ConsentFits(s, ctx.mode, c, p, at))
  {
    hide ReconsentEffect, Valid, TrustChecks;
  }

  lemma ReconsentWrites(s: State, ctx: Context, c: ConsentInput, f: Id, p: Option<Policy>, at: Time)
    requires Valid(s) && (ctx.deviceId, OpReconsent, c.requestId) !in s.ledger
    requires Reconsent(s, ctx, c, f, p, at).1.Reply?
    ensures var (t, answer) := Reconsent(s, ctx, c, f, p, at);
            var d := ctx.deviceId;
            d in s.devices && ctx.mode in s.policies &&
            t.devices == s.devices[d := s.devices[d].(permissions := c.permissions)] &&
            t.consents == s.consents[d := Consent(s.policies[ctx.mode].id, s.policies[ctx.mode].contentHash,
                                                  c.permissions, c.acceptedAt, at, None)] &&
            t.credentials == s.credentials && t.employees == s.employees &&
            answer == Reply(Reconsented(t.devices[d], s.policies[ctx.mode], c.acceptedAt), false)
  {
    CurrentHolds(s, ctx, Session, at);
    hide Valid, FindCurrent, ConsentAcceptable;
    AcceptedNames(s, ctx, c, p, at);
  }

  /** Publishing a policy leaves consent current exactly on devices of other modes, or if it is the one agreed to. */
  lemma PublishEndsConsent(s: State, d: Id, mode: Mode, policy: Policy)
    requires ConsentCurrent(s, d)
    ensures ConsentCurrent(PublishPolicy(s, mode, policy), d) <==>
              s.modes[d] != mode ||
              (policy.id == s.consents[d].policyId && policy.contentHash == s.consents[d].policyHash)
  {
  }

  /** With an accepted session, a first preparation succeeds exactly for a new pending session and current consent. */
  lemma PrepareAnswers(s: State, h: Id, n: NewCredential, rid: Id, f: Id, at: Time)
    requires Valid(s) && ResolveCredential(s, h, Session, at).Some?
    requires (s.credentials[h].deviceId, OpPrepare, rid) !in s.ledger
    ensures var ctx := ResolveCredential(s, h, Session, at).value;
            var answer := Prepare(s, ctx, n, rid, f, at).1;
            var proposed := n.credentialType == Session && n.lifecycle == Pending && n.requestId == rid &&
                            n.rotatedFrom == Some(s.credentials[h].id) && n.hexHash && n.tokenHash !in s.credentials;
            (answer.NoMatch? <==> !proposed) &&
            (answer.ConsentRequired? <==> proposed && !ConsentCurrent(s, s.credentials[h].deviceId)) &&
            (proposed && ConsentCurrent(s, s.credentials[h].deviceId) ==>
              answer == Reply(Prepared(rid, n.expiresAt, at), false))
  {
    hide PrepareEffect, Valid, TrustChecks, ConsentCurrent;
  }

  /** The identity that an accepted credential gives: as stored, as the device stands, and with its consent. */
  lemma ResolvedContext(s: State, h: Id, t: CredentialType, at: Time)
    requires Valid(s) && ResolveCredential(s, h, t, at).Some?
    ensures var who := ResolveCredential(s, h, t, at).value;
            var c := s.credentials[h];
            var d := c.deviceId;
            d in s.devices && d in s.modes &&
            who.credentialId == c.id && who.credentialType == t && who.lifecycle == Active &&
            who.organizationId == c.organizationId && who.employeeId == c.employeeId && who.deviceId == d &&
            who.installationId == s.devices[d].installationId && who.permissions == s.devices[d].permissions &&
            who.mode == s.modes[d] &&
            (who.consentCurrent <==>
              d in s.consents && s.consents[d].withdrawnAt.None? && s.modes[d] in s.policies &&
              s.consents[d].policyId == s.policies[s.modes[d]].id &&
              s.consents[d].policyHash == s.policies[s.modes[d]].contentHash)
  {
    ResolveExactly(s, h, t, at);
    hide Valid, FindCurrent;
  }

  // ---------------------------------------------------------------- revocation

  /** With an accepted session a first self-revocation always succeeds, and takes everything of the device away. */
  lemma SelfRevokeWrites(s: State, h: Id, rid: Id, f: Id, at: Time)
    requires Valid(s) && ResolveCredential(s, h, Session, at).Some?
    requires (s.credentials[h].deviceId, OpRevoke, rid) !in s.ledger
    ensures var ctx := ResolveCredential(s, h, Session, at).value;
            var d := s.credentials[h].deviceId;
            var (t, answer) := SelfRevoke(s, ctx, rid, f, at);
            answer == Reply(SessionRevoked(d, at, at), false) && d in s.devices && d in s.consents &&
            t.devices == s.devices[d := s.devices[d].(status := DeviceRevoked, revokedAt := Some(at))] &&
            t.consents == s.consents[d := s.consents[d].(withdrawnAt := Some(at))] &&
            t.credentials.Keys == s.credentials.Keys &&
            (forall g :: g in s.credentials && s.credentials[g].deviceId == d ==>
              t.credentials[g].revokedAt ==
                (if s.credentials[g].revokedAt.Some? then s.credentials[g].revokedAt else Some(at)) &&
              (s.credentials[g].revokedAt.None? ==> t.credentials[g].lifecycle == Revoked)) &&
            (forall g :: g in s.credentials && s.credentials[g].deviceId != d ==> t.credentials[g] == s.credentials[g])
  {
    var ctx := ResolveCredential(s, h, Session, at).value;
    assert FindCurrent(s, ctx, Session, at).Some?;
    hide Valid;
  }

  /** A first device recovery succeeds exactly for a device in service and an active user, with unused evidence. */
  lemma AdminRevokeAnswers(s: State, a: AdminInput, at: Time)
    requires (a.organizationId, a.requestId) !in s.adminRevocations
    ensures var answer := AdminRevoke(s, a, at).1;
            var ours := a.deviceId in s.devices && s.devices[a.deviceId].organizationId == a.organizationId;
            var gone := ours &&
                        (s.devices[a.deviceId].status == DeviceRevoked || s.devices[a.deviceId].revokedAt.Some?);
            var actor := a.actorUserId in s.users && s.users[a.actorUserId].organizationId == a.organizationId &&
                         s.users[a.actorUserId].active;
            var unused := a.organizationId in s.audits && a.outboxEventId !in s.outbox &&
                          forall i :: 0 <= i < |s.audits[a.organizationId]| ==>
                            s.audits[a.organizationId][i].id != a.auditEventId;
            (answer.AdminConflict? <==> gone) &&
            (answer.AdminNoMatch? <==> !ours || (!gone && !actor)) &&
            (answer.AdminFault? <==> ours && !gone && actor && !unused) &&
            (answer.AdminReply? <==> ours && !gone && actor && unused)
  {
    hide AdminRevokeEffect, AdminRevokeResult;
  }

  /** A recovery that is on record is answered again for the same device, user and payload, and no other. */
  lemma RecordedRecovery(s: State, a: AdminInput, at: Time)
    requires (a.organizationId, a.requestId) in s.adminRevocations
    ensures var prior := s.adminRevocations[(a.organizationId, a.requestId)];
            var same := prior.deviceId == a.deviceId && prior.actorUserId == a.actorUserId &&
                        prior.fingerprint == a.fingerprint;
            AdminRevoke(s, a, at) == (s, if same then AdminReply(prior.result, true) else AdminConflict)
  {
  }

  /** What a recovery writes: device, consent and live credentials, one audit event and one outbox event. */
  lemma AdminRevokeWrites(s: State, a: AdminInput, at: Time)
    requires (a.organizationId, a.requestId) !in s.adminRevocations && AdminRevoke(s, a, at).1.AdminReply?
    ensures var (t, answer) := AdminRevoke(s, a, at);
            var d := a.deviceId;
            var live := set h | h in s.credentials && s.credentials[h].deviceId == d &&
                                (s.credentials[h].lifecycle == Active || s.credentials[h].lifecycle == Pending);
            var inForce := d in s.consents && s.consents[d].withdrawnAt.None?;
            d in s.devices && a.organizationId in s.audits &&
            !answer.replayed &&
            answer.result == AdminResult(d, s.devices[d].employeeId, at, a.reason, |live|, inForce) &&
            t.devices == s.devices[d := s.devices[d].(status := DeviceRevoked, revokedAt := Some(at))] &&
            t.consents == (if inForce then s.consents[d := s.consents[d].(withdrawnAt := Some(at))] else s.consents) &&
            t.credentials.Keys == s.credentials.Keys &&
            (forall h :: h in s.credentials ==>
              t.credentials[h] == if h in live then s.credentials[h].(lifecycle := Revoked, revokedAt := Some(at))
                                  else s.credentials[h]) &&
            t.audits == s.audits[a.organizationId := s.audits[a.organizationId] +
              [AuditEvent(a.auditEventId, a.actorUserId, a.requestId, d, answer.result)]] &&
            t.outbox == s.outbox[a.outboxEventId := OutboxEvent(a.organizationId, a.requestId, d)]
  {
    var live := set h | h in s.credentials && s.credentials[h].deviceId == a.deviceId &&
                        (s.credentials[h].lifecycle == Active || s.credentials[h].lifecycle == Pending);
    assert AdminTargets(s.credentials, a.deviceId) == live;
  }

  /** Suspension pauses the employee and reaches every device of theirs, and nothing of anybody else. */
  lemma SuspendWrites(s: State, o: Id, e: Id, at: Time)
    requires Valid(s) && e in s.employees
    ensures var (t, done) := Suspend(s, o, e, at);
            (done <==> s.employees[e].organizationId == o) && (!done ==> t == s) &&
            (done ==>
              t.employees == s.employees[e := s.employees[e].(status := Paused)] &&
              t.devices.Keys == s.devices.Keys && t.credentials.Keys == s.credentials.Keys &&
              (forall d :: d in s.devices ==>
                t.devices[d] == if s.devices[d].employeeId == e
                                then s.devices[d].(status := DeviceRevoked, revokedAt := Some(at)) else s.devices[d]) &&
              (forall h :: h in s.credentials ==>
                t.credentials[h] == if s.credentials[h].employeeId == e && s.credentials[h].revokedAt.None?
                                    then s.credentials[h].(revokedAt := Some(at)) else s.credentials[h]))
  {
    if s.employees[e].organizationId == o {
      forall d | d in s.devices ensures d in SuspendedDevices(s, o, e) <==> s.devices[d].employeeId == e {
        assert DeviceHoused(s.employees, s.devices, s.modes, d) && ListsOwn(s.employees, s.devices, e);
      }
      forall h | h in s.credentials
        ensures s.credentials[h].deviceId in SuspendedDevices(s, o, e) <==> s.credentials[h].employeeId == e
      {
        assert OwnedBy(s.credentials[h], s.devices);
      }
      hide Valid, SuspendedDevices;
    }
  }

  // ---------------------------------------------------------------- for good

  /** The credential has been stamped, or has served its purpose. */
  predicate Spent(c: Credential) {
    c.revokedAt.Some? || c.lifecycle == Consumed || c.lifecycle == Revoked
  }

  lemma SelfRevokeSpends(s: State, ctx: Context, rid: Id, f: Id, at: Time, h: Id)
    requires EndsDevice(s, DoSelfRevoke(ctx, rid, f, at), ctx.deviceId)
    requires h in s.credentials && s.credentials[h].deviceId == ctx.deviceId
    ensures var t := SelfRevoke(s, ctx, rid, f, at).0; h in t.credentials && Spent(t.credentials[h])
  {
    hide FindCurrent;
  }

  lemma AdminRevokeSpends(s: State, a: AdminInput, at: Time, h: Id)
    requires EndsDevice(s, DoAdminRevoke(a, at), a.deviceId)
    requires h in s.credentials && s.credentials[h].deviceId == a.deviceId
    ensures var t := AdminRevoke(s, a, at).0; h in t.credentials && Spent(t.credentials[h])
  {
    assert h in AdminRevokeAll(s.credentials, a.deviceId, at);
  }

  lemma SuspendSpends(s: State, o: Id, e: Id, at: Time, h: Id)
    requires h in s.credentials && EndsDevice(s, DoSuspend(o, e, at), s.credentials[h].deviceId)
    ensures var t := Suspend(s, o, e, at).0; h in t.credentials && Spent(t.credentials[h])
  {
  }

  /**
   * Once a device is revoked, by itself or by an administrator, or its employee suspended, no credential it had is
   * accepted at any time in any later state; only a new pairing brings it back.
   */
  lemma {:induction false} EndedForGood(s: State, op: Op, ops: seq<Op>, h: Id, t: CredentialType, later: Time)
    requires Valid(s) && Fresh(s, op) && LegalRun(Step(s, op), ops)
    requires h in s.credentials && EndsDevice(s, op, s.credentials[h].deviceId)
    ensures ResolveCredential(Run(Step(s, op), ops), h, t, later).None?
  {
    StepKeeps(s, op);
    RunKeeps(Step(s, op), ops);
    match op {
      case DoSelfRevoke(ctx, rid, f, at) => SelfRevokeSpends(s, ctx, rid, f, at, h);
      case DoAdminRevoke(a, at) => AdminRevokeSpends(s, a, at, h);
      case DoSuspend(o, e, at) => SuspendSpends(s, o, e, at, h);
      case _ =>
    }
    SpentRefused(Step(s, op), Run(Step(s, op), ops), h, t, later);
    hide Step, Run, Valid, LegalRun;
  }

  lemma SpentRefused(s: State, u: State, h: Id, t: CredentialType, later: Time)
    requires Valid(u) && Advances(s, u) && h in s.credentials && Spent(s.credentials[h])
    ensures ResolveCredential(u, h, t, later).None?
  {
    assert Forward(s.credentials[h], u.credentials[h]);
    ResolveExactly(u, h, t, later);
    hide Valid;
  }
}
