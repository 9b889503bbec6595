/**
 * What becomes of the credentials that the protocol issues: the bootstrap credential of a pairing, the session of an
 * activation, and the session of a rotation are accepted until the time that was proposed for them, and not longer,
 * as long as no later operation takes them out of use.
 */
module TrustIssued {
  import opened Common
  import opened TrustModel
  import opened TrustInvariant
  import opened TrustSteps
  import opened TrustRuns
  import opened TrustSessions
  import opened TrustActive

  /** The credential is active, and neither consumed nor revoked. */
  ghost predicate InUse(s: State, h: Id) {
    h in s.credentials && s.credentials[h].lifecycle == Active && s.credentials[h].consumedAt.None? &&
    s.credentials[h].revokedAt.None?
  }

  /** The operation is an activation, carried out, with the bootstrap credential under `h`. */
  predicate ActivatesWith(s: State, op: Op, h: Id) {
    match op
    case DoActivate(ctx, c, n, f, p, at) =>
      (ctx.deviceId, OpActivate, c.requestId) !in s.ledger && Activate(s, ctx, c, n, f, p, at).1.Reply? &&
      FindCurrent(s, ctx, Bootstrap, at) == Some(h)
    case _ => false
  }

  /** The operation takes the credential under `h` out of use. */
  predicate EndsUse(s: State, op: Op, h: Id)
    requires h in s.credentials
  {
    var d := s.credentials[h].deviceId;
    ActivatesWith(s, op, h) || RotatesAway(s, op, h) || PairsDevice(s, op, d) || EndsDevice(s, op, d)
  }

  /** No operation of the run does. */
  ghost predicate StaysInUse(s: State, ops: seq<Op>, h: Id)
    decreases |ops|
  {
    ops != [] ==> h in s.credentials && !EndsUse(s, ops[0], h) && StaysInUse(Step(s, ops[0]), ops[1..], h)
  }

  /** The organization exists and is on trial or active. */
  predicate Serving(s: State, o: Id) {
    o in s.organizations && (s.organizations[o] == OrgTrial || s.organizations[o] == OrgActive)
  }

  /** The context names this credential and this organization, employee and device. */
  predicate Identifies(who: Context, id: Id, t: CredentialType, o: Id, e: Id, d: Id) {
    who.credentialId == id && who.credentialType == t && who.organizationId == o && who.employeeId == e &&
    who.deviceId == d
  }

  // ---------------------------------------------------------------- one step

  lemma RedeemInUse(s: State, r: RedeemInput, at: Time, h: Id)
    requires Valid(s) && Fresh(s, DoRedeem(r, at)) && InUse(s, h)
    ensures InUse(Redeem(s, r, at).0, h) <==> !PairsDevice(s, DoRedeem(r, at), s.credentials[h].deviceId)
  {
    if NewPairing(s, r, at) {
      RefusedOrPaired(s, r, at);
      PairEffectPairs(s, r, at);
      assert OwnedBy(s.credentials[h], s.devices);
    }
  }

  lemma ActivateEffectInUse(s: State, ctx: Context, b: Id, c: ConsentInput, n: NewCredential, f: Id, at: Time, h: Id)
    requires b in s.credentials && ctx.deviceId in s.devices && ctx.employeeId in s.employees && ctx.mode in s.policies
    requires InUse(s, h) && n.tokenHash !in s.credentials
    ensures InUse(ActivateEffect(s, ctx, b, c, n, f, at), h) <==> h != b
  {
  }

  lemma ActivateInUse(s: State, ctx: Context, c: ConsentInput, n: NewCredential, f: Id, p: Option<Policy>, at: Time,
                      h: Id)
    requires InUse(s, h)
    ensures InUse(Activate(s, ctx, c, n, f, p, at).0, h) <==>
              !ActivatesWith(s, DoActivate(ctx, c, n, f, p, at), h)
  {
    var b := FindCurrent(s, ctx, Bootstrap, at);
    var answer := Activate(s, ctx, c, n, f, p, at).1;
    if (ctx.deviceId, OpActivate, c.requestId) !in s.ledger && answer.Reply? {
      CurrentStored(s, ctx, at);
      hide FindCurrent, ConsentAcceptable;
      assert n.tokenHash !in s.credentials && ctx.mode in s.policies by { AcceptedPolicy(s, ctx, c, p, at); }
      ActivateEffectInUse(s, ctx, b.value, c, n, f, at, h);
    }
    hide FindCurrent, ConsentAcceptable, ActivateEffect, InUse;
  }

  lemma CurrentStored(s: State, ctx: Context, at: Time)
    ensures var b := FindCurrent(s, ctx, Bootstrap, at);
            b.Some? ==> b.value in s.credentials && ctx.deviceId in s.devices && ctx.employeeId in s.employees
  {
  }

  lemma AcceptedPolicy(s: State, ctx: Context, c: ConsentInput, p: Option<Policy>, at: Time)
    ensures ConsentAcceptable(s, ctx, c, p, at) ==> ctx.mode in s.policies
  {
  }

  lemma PrepareInUse(s: State, ctx: Context, n: NewCredential, rid: Id, f: Id, at: Time, h: Id)
    requires InUse(s, h)
    ensures InUse(Prepare(s, ctx, n, rid, f, at).0, h)
  {
  }

  lemma ConfirmEffectInUse(s: State, d: Id, p: Id, o: Id, rid: Id, f: Id, at: Time, h: Id)
    requires InUse(s, h) && p in s.credentials && o in s.credentials && s.credentials[p].lifecycle == Pending
    ensures InUse(ConfirmEffect(s, d, p, o, rid, f, at), h) <==> h != o
  {
  }

  lemma ConfirmInUse(s: State, ctx: Context, rid: Id, prid: Id, f: Id, at: Time, h: Id)
    requires InUse(s, h)
    ensures InUse(Confirm(s, ctx, rid, prid, f, at).0, h) <==> !RotatesAway(s, DoConfirm(ctx, rid, prid, f, at), h)
  {
    hide Rotation, ConfirmEffect, InUse;
    if (ctx.deviceId, OpConfirm, rid) !in s.ledger && Rotation(s, ctx, prid, at).Some? {
      var r := Rotation(s, ctx, prid, at).value;
      RotationPending(s, ctx, prid, at);
      ConfirmEffectInUse(s, ctx.deviceId, r.0, r.1, rid, f, at, h);
    }
  }

  lemma SelfRevokeInUse(s: State, ctx: Context, rid: Id, f: Id, at: Time, h: Id)
    requires InUse(s, h)
    ensures InUse(SelfRevoke(s, ctx, rid, f, at).0, h) <==>
              !EndsDevice(s, DoSelfRevoke(ctx, rid, f, at), s.credentials[h].deviceId)
  {
    assert h in RevokeAll(s.credentials, ctx.deviceId, at);
  }

  lemma AdminRevokeInUse(s: State, a: AdminInput, at: Time, h: Id)
    requires InUse(s, h)
    ensures InUse(AdminRevoke(s, a, at).0, h) <==>
              !EndsDevice(s, DoAdminRevoke(a, at), s.credentials[h].deviceId)
  {
    assert h in AdminRevokeAll(s.credentials, a.deviceId, at);
  }

  lemma SuspendInUse(s: State, o: Id, e: Id, at: Time, h: Id)
    requires InUse(s, h)
    ensures InUse(Suspend(s, o, e, at).0, h) <==> !EndsDevice(s, DoSuspend(o, e, at), s.credentials[h].deviceId)
  {
  }

  /** A usable credential stays usable exactly if the step does not take it out of use. */
  lemma {:induction false} InUseStep(s: State, op: Op, h: Id)
    requires Valid(s) && Fresh(s, op) && InUse(s, h)
    ensures InUse(Step(s, op), h) <==> !EndsUse(s, op, h)
  {
    hide Valid, Activate, Confirm, AdminRevoke, Suspend, Prepare, Reconsent, Redeem, SelfRevoke, FindCurrent, Rotation;
    hide NewPairing, Fresh, RedeemDevice;
    match op
    case DoRedeem(r, at) => RedeemInUse(s, r, at, h);
    case DoActivate(ctx, c, n, f, p, at) => ActivateInUse(s, ctx, c, n, f, p, at, h);
    case DoReconsent(ctx, c, f, p, at) => ReconsentActive(s, ctx, c, f, p, at);
    case DoPrepare(ctx, n, rid, f, at) => PrepareInUse(s, ctx, n, rid, f, at, h);
    case DoConfirm(ctx, rid, prid, f, at) => ConfirmInUse(s, ctx, rid, prid, f, at, h);
    case DoSelfRevoke(ctx, rid, f, at) => SelfRevokeInUse(s, ctx, rid, f, at, h);
    case DoAdminRevoke(a, at) => AdminRevokeInUse(s, a, at, h);
    case DoSuspend(o, e, at) => SuspendInUse(s, o, e, at, h);
    case DoCreateEmployee(_, _) =>
    case DoCreateCode(_, _, _) =>
    case DoRevokeCode(_, _, _) =>
    case DoPublishPolicy(_, _) =>
  }

  // ---------------------------------------------------------------- whole runs

  /** What is out of use, and not waiting to be confirmed, never comes into use again. */
  lemma {:induction false} NeverInUseAgain(s: State, ops: seq<Op>, h: Id)
    requires Valid(s) && LegalRun(s, ops) && h in s.credentials
    requires s.credentials[h].lifecycle != Pending && !Usable(s.credentials[h])
    ensures !InUse(Run(s, ops), h)
  {
    RunKeeps(s, ops);
    assert Forward(s.credentials[h], Run(s, ops).credentials[h]);
  }

  lemma {:induction false} InUseRun(s: State, ops: seq<Op>, h: Id)
    requires Valid(s) && LegalRun(s, ops) && InUse(s, h)
    ensures InUse(Run(s, ops), h) <==> StaysInUse(s, ops, h)
    decreases |ops|
  {
    hide Valid, EndsUse, Step, Fresh;
    if ops == [] {
    } else {
      var t := Step(s, ops[0]);
      StepKeeps(s, ops[0]);
      InUseStep(s, ops[0], h);
      assert Forward(s.credentials[h], t.credentials[h]);
      if EndsUse(s, ops[0], h) {
        NeverInUseAgain(t, ops[1..], h);
      } else {
        InUseRun(t, ops[1..], h);
      }
    }
  }

  lemma OrganizationsStep(s: State, op: Op)
    ensures Step(s, op).organizations == s.organizations
  {
    hide FindCurrent, Rotation, RedeemRefusal, ConsentAcceptable, PairedCredentials, FreezeAll, RevokeAll;
    hide AdminRevokeAll, ConsentCurrent;
  }

  lemma {:induction false} OrganizationsRun(s: State, ops: seq<Op>)
    ensures Run(s, ops).organizations == s.organizations
    decreases |ops|
  {
    hide Step;
    if ops == [] {
    } else {
      OrganizationsStep(s, ops[0]);
      OrganizationsRun(Step(s, ops[0]), ops[1..]);
    }
  }

  /** A usable credential is accepted, over every run, exactly until its expiry and as long as it stays in use. */
  lemma {:induction false} AcceptedRun(s: State, ops: seq<Op>, h: Id, later: Time)
    requires Valid(s) && LegalRun(s, ops) && InUse(s, h)
    ensures var c := s.credentials[h];
            var who := ResolveCredential(Run(s, ops), h, c.credentialType, later);
            (who.Some? <==> StaysInUse(s, ops, h) && later < c.expiresAt && Serving(s, c.organizationId)) &&
            (who.Some? ==>
              Identifies(who.value, c.id, c.credentialType, c.organizationId, c.employeeId, c.deviceId))
  {
    var c := s.credentials[h];
    var u := Run(s, ops);
    RunKeeps(s, ops);
    InUseRun(s, ops, h);
    OrganizationsRun(s, ops);
    assert Forward(s.credentials[h], u.credentials[h]);
    ResolveExactly(u, h, c.credentialType, later);
    hide Valid, Run, LegalRun, StaysInUse, FindCurrent;
  }

  /** The context names the credential with all its identity, and its device as it stands. */
  ghost predicate Fits(s: State, who: Context, h: Id)
    requires h in s.credentials
  {
    var c := s.credentials[h];
    && Identifies(who, c.id, c.credentialType, c.organizationId, c.employeeId, c.deviceId)
    && c.deviceId in s.devices && s.devices[c.deviceId].installationId == who.installationId
    && c.deviceId in s.modes && s.modes[c.deviceId] == who.mode
  }

  /**
   * An operation finds a current credential for a context exactly if one in use and unexpired fits it in every part,
   * and the organization is on trial or active; whatever the context itself says about consent or permissions.
   */
  lemma FoundExactly(s: State, who: Context, t: CredentialType, at: Time)
    requires Valid(s)
    ensures FindCurrent(s, who, t, at).Some? <==>
              who.credentialType == t && Serving(s, who.organizationId) &&
              exists h {:trigger InUse(s, h)} :: InUse(s, h) && Fits(s, who, h) && at < s.credentials[h].expiresAt
  {
    if h: Id :| InUse(s, h) && Fits(s, who, h) && at < s.credentials[h].expiresAt {
      InUseFound(s, who, t, at, h);
    }
    if FindCurrent(s, who, t, at).Some? {
      CurrentFits(s, who, t, at);
    }
    hide Valid, FindCurrent, InUse, Fits;
  }

  lemma InUseFound(s: State, who: Context, t: CredentialType, at: Time, h: Id)
    requires Valid(s) && InUse(s, h) && Fits(s, who, h)
    ensures FindCurrent(s, who, t, at) ==
              if who.credentialType == t && Serving(s, who.organizationId) && at < s.credentials[h].expiresAt
              then Some(h) else None
  {
    var c := s.credentials[h];
    assert OwnedBy(c, s.devices) && HashIndexed(s.credentials, s.hashById, h);
    assert DeviceHoused(s.employees, s.devices, s.modes, c.deviceId);
    assert Backed(c, s.employees, s.devices, s.consents);
    hide Valid;
  }

  lemma CurrentFits(s: State, who: Context, t: CredentialType, at: Time)
    requires FindCurrent(s, who, t, at).Some?
    ensures var h := FindCurrent(s, who, t, at).value;
            who.credentialType == t && Serving(s, who.organizationId) &&
            InUse(s, h) && Fits(s, who, h) && at < s.credentials[h].expiresAt
  {
  }

  // ---------------------------------------------------------------- what the operations issue

  lemma PairIssues(s: State, r: RedeemInput, at: Time)
    requires NewPairing(s, r, at) && Proposed(s, r)
    ensures var code := CodeOf(s, r.codeHash);
            var h := r.bootstrap.tokenHash;
            var t := Redeem(s, r, at).0;
            InUse(t, h) && t.organizations == s.organizations &&
            var c := t.credentials[h];
            c.id == r.bootstrap.id && c.credentialType == Bootstrap && c.expiresAt == r.bootstrap.expiresAt &&
            c.organizationId == code.organizationId && c.employeeId == code.employeeId &&
            c.deviceId == RedeemDevice(s, r, code.organizationId)
  {
  }

  lemma ActivateIssues(s: State, ctx: Context, c: ConsentInput, n: NewCredential, f: Id, p: Option<Policy>, at: Time)
    requires (ctx.deviceId, OpActivate, c.requestId) !in s.ledger && Activate(s, ctx, c, n, f, p, at).1.Reply?
    ensures var (t, answer) := Activate(s, ctx, c, n, f, p, at);
            InUse(t, n.tokenHash) && t.organizations == s.organizations &&
            answer.response.Activated? && answer.response.sessionExpiresAt == n.expiresAt &&
            var session := t.credentials[n.tokenHash];
            session.id == n.id && session.credentialType == Session && session.expiresAt == n.expiresAt &&
            session.organizationId == ctx.organizationId && session.employeeId == ctx.employeeId &&
            session.deviceId == ctx.deviceId
  {
    hide FindCurrent, ConsentAcceptable;
  }

  /**
   * The bootstrap credential that a device proposes when it is paired is accepted, over every run that follows,
   * exactly until the expiry that was answered, while it stays in use and its organization is on trial or active.
   */
  lemma {:induction false} PairedAccepted(s: State, r: RedeemInput, at: Time, ops: seq<Op>, later: Time)
    requires Valid(s) && NewPairing(s, r, at) && Fresh(s, DoRedeem(r, at)) && LegalRun(Redeem(s, r, at).0, ops)
    ensures var code := CodeOf(s, r.codeHash);
            var (t, answer) := Redeem(s, r, at);
            var who := ResolveCredential(Run(t, ops), r.bootstrap.tokenHash, Bootstrap, later);
            answer.Redeemed? && answer.bootstrapExpiresAt == r.bootstrap.expiresAt &&
            (who.Some? <==>
              StaysInUse(t, ops, r.bootstrap.tokenHash) && later < r.bootstrap.expiresAt &&
              Serving(s, code.organizationId)) &&
            (who.Some? ==> Identifies(who.value, r.bootstrap.id, Bootstrap, code.organizationId, code.employeeId,
                                      answer.deviceId))
  {
    hide Valid, LegalRun, Run, StaysInUse, InUse, ResolveCredential;
    RedeemStep(s, r, at);
    PairIssues(s, r, at);
    AcceptedRun(Redeem(s, r, at).0, ops, r.bootstrap.tokenHash, later);
  }

  /** So is the session that an activation issues. */
  lemma {:induction false} ActivatedAccepted(s: State, ctx: Context, c: ConsentInput, n: NewCredential, f: Id,
                                             p: Option<Policy>, at: Time, ops: seq<Op>, later: Time)
    requires Valid(s) && n.id !in s.hashById && (ctx.deviceId, OpActivate, c.requestId) !in s.ledger
    requires Activate(s, ctx, c, n, f, p, at).1.Reply? && LegalRun(Activate(s, ctx, c, n, f, p, at).0, ops)
    ensures var (t, answer) := Activate(s, ctx, c, n, f, p, at);
            var who := ResolveCredential(Run(t, ops), n.tokenHash, Session, later);
            answer.response.Activated? && answer.response.sessionExpiresAt == n.expiresAt &&
            (who.Some? <==>
              StaysInUse(t, ops, n.tokenHash) && later < n.expiresAt && Serving(s, ctx.organizationId)) &&
            (who.Some? ==>
              Identifies(who.value, n.id, Session, ctx.organizationId, ctx.employeeId, ctx.deviceId))
  {
    hide Valid, LegalRun, Run, StaysInUse, InUse, ResolveCredential, Activate;
    ActivateStep(s, ctx, c, n, f, p, at);
    ActivateIssues(s, ctx, c, n, f, p, at);
    AcceptedRun(Activate(s, ctx, c, n, f, p, at).0, ops, n.tokenHash, later);
  }

  // ---------------------------------------------------------------- rotations

  /** The credential under `p` waits to replace the session under `h`, which is in use. */
  ghost predicate Awaits(s: State, p: Id, h: Id) {
    && InUse(s, h) && s.credentials[h].credentialType == Session
    && p in s.credentials && s.credentials[p].lifecycle == Pending
    && s.credentials[p].rotatedFrom == Some(s.credentials[h].id)
    && s.credentials[p].deviceId == s.credentials[h].deviceId
  }

  lemma RedeemAwaits(s: State, r: RedeemInput, at: Time, p: Id, h: Id)
    requires Valid(s) && Fresh(s, DoRedeem(r, at)) && Awaits(s, p, h)
    requires !PairsDevice(s, DoRedeem(r, at), s.credentials[h].deviceId)
    ensures var t := Redeem(s, r, at).0; p in t.credentials && t.credentials[p] == s.credentials[p]
  {
    if NewPairing(s, r, at) {
      RefusedOrPaired(s, r, at);
      PairEffectPairs(s, r, at);
      assert OwnedBy(s.credentials[h], s.devices);
    }
  }

  lemma ConfirmAwaits(s: State, ctx: Context, rid: Id, prid: Id, f: Id, at: Time, p: Id, h: Id)
    requires Valid(s) && Awaits(s, p, h) && !RotatesAway(s, DoConfirm(ctx, rid, prid, f, at), h)
    ensures var t := Confirm(s, ctx, rid, prid, f, at).0; p in t.credentials && t.credentials[p] == s.credentials[p]
  {
    if (ctx.deviceId, OpConfirm, rid) !in s.ledger && Rotation(s, ctx, prid, at).Some? {
      RotationRotates(s, ctx, prid, at);
      var r := Rotation(s, ctx, prid, at).value;
      assert HashIndexed(s.credentials, s.hashById, r.1) && HashIndexed(s.credentials, s.hashById, h);
    }
  }

  lemma ActivateAwaits(s: State, ctx: Context, c: ConsentInput, n: NewCredential, f: Id, q: Option<Policy>, at: Time,
                       p: Id)
    requires p in s.credentials && s.credentials[p].lifecycle == Pending
    ensures var t := Activate(s, ctx, c, n, f, q, at).0; p in t.credentials && t.credentials[p] == s.credentials[p]
  {
  }

  lemma PrepareAwaits(s: State, ctx: Context, n: NewCredential, rid: Id, f: Id, at: Time, p: Id)
    requires p in s.credentials
    ensures var t := Prepare(s, ctx, n, rid, f, at).0; p in t.credentials && t.credentials[p] == s.credentials[p]
  {
    hide FindCurrent, ConsentCurrent;
  }

  lemma SelfRevokeAwaits(s: State, ctx: Context, rid: Id, f: Id, at: Time, p: Id)
    requires p in s.credentials && !EndsDevice(s, DoSelfRevoke(ctx, rid, f, at), s.credentials[p].deviceId)
    ensures var t := SelfRevoke(s, ctx, rid, f, at).0; p in t.credentials && t.credentials[p] == s.credentials[p]
  {
    assert p in RevokeAll(s.credentials, ctx.deviceId, at);
  }

  lemma AdminRevokeAwaits(s: State, a: AdminInput, at: Time, p: Id)
    requires p in s.credentials && !EndsDevice(s, DoAdminRevoke(a, at), s.credentials[p].deviceId)
    ensures var t := AdminRevoke(s, a, at).0; p in t.credentials && t.credentials[p] == s.credentials[p]
  {
    assert p in AdminRevokeAll(s.credentials, a.deviceId, at);
  }

  lemma SuspendAwaits(s: State, o: Id, e: Id, at: Time, p: Id)
    requires p in s.credentials && !EndsDevice(s, DoSuspend(o, e, at), s.credentials[p].deviceId)
    ensures var t := Suspend(s, o, e, at).0; p in t.credentials && t.credentials[p] == s.credentials[p]
  {
  }

  /** What waits for a session that the step leaves in use is left as it is. */
  lemma {:induction false} AwaitsStep(s: State, op: Op, p: Id, h: Id)
    requires Valid(s) && Fresh(s, op) && Awaits(s, p, h) && !EndsUse(s, op, h)
    ensures var t := Step(s, op); p in t.credentials && t.credentials[p] == s.credentials[p]
  {
    hide Valid, Activate, Confirm, AdminRevoke, Suspend, Prepare, Reconsent, Redeem, SelfRevoke, FindCurrent, Rotation;
    hide NewPairing, Fresh, RedeemDevice, EndsDevice, PairsDevice, RotatesAway, ActivatesWith;
    match op
    case DoRedeem(r, at) => RedeemAwaits(s, r, at, p, h);
    case DoActivate(ctx, c, n, f, q, at) => ActivateAwaits(s, ctx, c, n, f, q, at, p);
    case DoReconsent(ctx, c, f, q, at) => ReconsentActive(s, ctx, c, f, q, at);
    case DoPrepare(ctx, n, rid, f, at) => PrepareAwaits(s, ctx, n, rid, f, at, p);
    case DoConfirm(ctx, rid, prid, f, at) => ConfirmAwaits(s, ctx, rid, prid, f, at, p, h);
    case DoSelfRevoke(ctx, rid, f, at) => SelfRevokeAwaits(s, ctx, rid, f, at, p);
    case DoAdminRevoke(a, at) => AdminRevokeAwaits(s, a, at, p);
    case DoSuspend(o, e, at) => SuspendAwaits(s, o, e, at, p);
    case DoCreateEmployee(_, _) =>
    case DoCreateCode(_, _, _) =>
    case DoRevokeCode(_, _, _) =>
    case DoPublishPolicy(_, _) =>
  }

  lemma {:induction false} AwaitsRun(s: State, ops: seq<Op>, p: Id, h: Id)
    requires Valid(s) && LegalRun(s, ops) && Awaits(s, p, h) && StaysInUse(s, ops, h)
    ensures var u := Run(s, ops);
            Awaits(u, p, h) && u.credentials[p] == s.credentials[p] && u.credentials[h].id == s.credentials[h].id
    decreases |ops|
  {
    hide Valid, EndsUse, Step, Fresh;
    if ops == [] {
    } else {
      var t := Step(s, ops[0]);
      StepKeeps(s, ops[0]);
      InUseStep(s, ops[0], h);
      AwaitsStep(s, ops[0], p, h);
      assert Forward(s.credentials[h], t.credentials[h]);
      AwaitsRun(t, ops[1..], p, h);
    }
  }

  lemma PrepareIssues(s: State, ctx: Context, n: NewCredential, rid: Id, f: Id, at: Time)
    requires Valid(s) && n.id !in s.hashById
    requires (ctx.deviceId, OpPrepare, rid) !in s.ledger && Prepare(s, ctx, n, rid, f, at).1.Reply?
    ensures var t := Prepare(s, ctx, n, rid, f, at).0;
            var h := FindCurrent(s, ctx, Session, at);
            h.Some? && Awaits(t, n.tokenHash, h.value) && t.organizations == s.organizations &&
            t.hashById[n.id] == n.tokenHash && n.id in t.hashById &&
            t.credentials[h.value].id == ctx.credentialId && t.credentials[h.value].deviceId == ctx.deviceId &&
            var c := t.credentials[n.tokenHash];
            c.id == n.id && c.expiresAt == n.expiresAt && c.requestId == rid && c.credentialType == Session &&
            c.organizationId == ctx.organizationId && c.employeeId == ctx.employeeId && c.deviceId == ctx.deviceId &&
            var key := (ctx.deviceId, OpPrepare, rid);
            key in t.ledger && t.ledger[key].proposedHash == Some(n.tokenHash)
  {
    CurrentHolds(s, ctx, Session, at);
    hide Valid, FindCurrent, ConsentCurrent;
  }

  /**
   * A prepared rotation can be confirmed, after every run, exactly until the expiry that was proposed and as long as
   * the session it was prepared from stays in use; the answer names that expiry.
   */
  lemma {:induction false} PreparedConfirms(s: State, ctx: Context, n: NewCredential, rid: Id, f: Id, at: Time,
                                            ops: seq<Op>, who: Context, confirm: Id, g: Id, later: Time)
    requires Valid(s) && n.id !in s.hashById
    requires (ctx.deviceId, OpPrepare, rid) !in s.ledger && Prepare(s, ctx, n, rid, f, at).1.Reply?
    requires LegalRun(Prepare(s, ctx, n, rid, f, at).0, ops)
    requires who.credentialId == n.id && who.deviceId == ctx.deviceId
    requires (who.deviceId, OpConfirm, confirm) !in Run(Prepare(s, ctx, n, rid, f, at).0, ops).ledger
    ensures var h := FindCurrent(s, ctx, Session, at);
            var t := Prepare(s, ctx, n, rid, f, at).0;
            h.Some? &&
            Confirm(Run(t, ops), who, confirm, rid, g, later).1 ==
              if StaysInUse(t, ops, h.value) && later < n.expiresAt
              then Reply(Confirmed(confirm, n.expiresAt, later), false) else NoMatch
  {
    var t := Prepare(s, ctx, n, rid, f, at).0;
    PrepareStep(s, ctx, n, rid, f, at);
    PrepareIssues(s, ctx, n, rid, f, at);
    var h := FindCurrent(s, ctx, Session, at).value;
    hide Prepare, FindCurrent;
    PreparedRotates(t, ops, n.tokenHash, h, who, rid, later);
  }

  /**
   * While the session it was prepared from stays in use, the proposed credential itself is accepted for the
   * confirmation of its own preparation, exactly until it expires.
   */
  lemma {:induction false} PreparedResolves(s: State, ctx: Context, n: NewCredential, rid: Id, f: Id, at: Time,
                                            ops: seq<Op>, later: Time)
    requires Valid(s) && n.id !in s.hashById
    requires (ctx.deviceId, OpPrepare, rid) !in s.ledger && Prepare(s, ctx, n, rid, f, at).1.Reply?
    requires LegalRun(Prepare(s, ctx, n, rid, f, at).0, ops) && FindCurrent(s, ctx, Session, at).Some?
    requires StaysInUse(Prepare(s, ctx, n, rid, f, at).0, ops, FindCurrent(s, ctx, Session, at).value)
    ensures var u := Run(Prepare(s, ctx, n, rid, f, at).0, ops);
            var who := ResolvePending(u, n.tokenHash, rid, later);
            (who.Some? <==> later < n.expiresAt) &&
            (who.Some? ==>
              Identifies(who.value, n.id, Session, ctx.organizationId, ctx.employeeId, ctx.deviceId)) &&
            forall other {:trigger ResolvePending(u, n.tokenHash, other, later)} ::
              other != rid ==> ResolvePending(u, n.tokenHash, other, later).None?
  {
    var t := Prepare(s, ctx, n, rid, f, at).0;
    PrepareStep(s, ctx, n, rid, f, at);
    PrepareIssues(s, ctx, n, rid, f, at);
    var h := FindCurrent(s, ctx, Session, at).value;
    hide Prepare, FindCurrent, Valid, Run, LegalRun, StaysInUse, ResolvePending;
    AwaitsRun(t, ops, n.tokenHash, h);
    RunKeeps(t, ops);
    WaitingResolves(Run(t, ops), n.tokenHash, rid, later);
  }

  /** A waiting session credential is resolved for its own preparation, as long as it has not expired. */
  lemma WaitingResolves(u: State, p: Id, rid: Id, later: Time)
    requires Valid(u) && p in u.credentials && u.credentials[p].credentialType == Session
    requires u.credentials[p].lifecycle == Pending && u.credentials[p].requestId == rid
    requires var key := (u.credentials[p].deviceId, OpPrepare, rid);
             key in u.ledger && u.ledger[key].proposedHash == Some(p)
    ensures var (c, who) := (u.credentials[p], ResolvePending(u, p, rid, later));
            (who.Some? <==> later < c.expiresAt) &&
            (who.Some? ==> Identifies(who.value, c.id, Session, c.organizationId, c.employeeId, c.deviceId)) &&
            forall other {:trigger ResolvePending(u, p, other, later)} ::
              other != rid ==> ResolvePending(u, p, other, later).None?
  {
    assert OwnedBy(u.credentials[p], u.devices);
    assert DeviceHoused(u.employees, u.devices, u.modes, u.credentials[p].deviceId);
    hide Valid, ConsentCurrent;
  }

  /** The rotation of a waiting credential, after a run. */
  lemma {:induction false} PreparedRotates(t: State, ops: seq<Op>, p: Id, h: Id, who: Context, rid: Id, later: Time)
    requires Valid(t) && LegalRun(t, ops) && Awaits(t, p, h)
    requires t.credentials[p].requestId == rid && who.credentialId == t.credentials[p].id
    requires who.deviceId == t.credentials[p].deviceId
    requires var key := (who.deviceId, OpPrepare, rid); key in t.ledger && t.ledger[key].proposedHash == Some(p)
    ensures var u := Run(t, ops);
            Rotation(u, who, rid, later) ==
              (if StaysInUse(t, ops, h) && later < t.credentials[p].expiresAt then Some((p, h)) else None)
    ensures p in Run(t, ops).credentials && Run(t, ops).credentials[p].expiresAt == t.credentials[p].expiresAt
  {
    var u := Run(t, ops);
    RunKeeps(t, ops);
    InUseRun(t, ops, h);
    if StaysInUse(t, ops, h) {
      AwaitsRun(t, ops, p, h);
    }
    assert Forward(t.credentials[h], u.credentials[h]) && Forward(t.credentials[p], u.credentials[p]);
    assert HashIndexed(u.credentials, u.hashById, p) && HashIndexed(u.credentials, u.hashById, h);
    assert FitsIn(u.credentials, u.hashById, h);
    hide Valid, Run, LegalRun, StaysInUse;
  }

  /**
   * The session of a confirmed rotation is accepted, over every run that follows, exactly until the expiry that was
   * proposed when the rotation was prepared, however long before that was.
   */
  lemma {:induction false} RotatedAccepted(s: State, ctx: Context, n: NewCredential, rid: Id, f: Id, at: Time,
                                           ops: seq<Op>, who: Context, confirm: Id, g: Id, when: Time,
                                           more: seq<Op>, later: Time)
    requires Valid(s) && n.id !in s.hashById
    requires (ctx.deviceId, OpPrepare, rid) !in s.ledger && Prepare(s, ctx, n, rid, f, at).1.Reply?
    requires LegalRun(Prepare(s, ctx, n, rid, f, at).0, ops)
    requires var u := Run(Prepare(s, ctx, n, rid, f, at).0, ops);
             who.credentialId == n.id && who.deviceId == ctx.deviceId &&
             (who.deviceId, OpConfirm, confirm) !in u.ledger && Confirm(u, who, confirm, rid, g, when).1.Reply? &&
             LegalRun(Confirm(u, who, confirm, rid, g, when).0, more)
    ensures var u := Run(Prepare(s, ctx, n, rid, f, at).0, ops);
            var v := Confirm(u, who, confirm, rid, g, when).0;
            var accepted := ResolveCredential(Run(v, more), n.tokenHash, Session, later);
            (accepted.Some? <==>
              StaysInUse(v, more, n.tokenHash) && later < n.expiresAt && Serving(s, ctx.organizationId)) &&
            (accepted.Some? ==>
              Identifies(accepted.value, n.id, Session, ctx.organizationId, ctx.employeeId, ctx.deviceId))
  {
    var t := Prepare(s, ctx, n, rid, f, at).0;
    PrepareStep(s, ctx, n, rid, f, at);
    PrepareIssues(s, ctx, n, rid, f, at);
    var h := FindCurrent(s, ctx, Session, at).value;
    hide Prepare, FindCurrent, StaysInUse, Valid, LegalRun, Run, ResolveCredential;
    var u := Run(t, ops);
    PreparedRotates(t, ops, n.tokenHash, h, who, rid, when);
    RunKeeps(t, ops);
    OrganizationsRun(t, ops);
    ConfirmStep(u, who, confirm, rid, g, when);
    ConfirmIssues(u, who, confirm, rid, g, when, n.tokenHash);
    assert Forward(t.credentials[n.tokenHash], u.credentials[n.tokenHash]);
    AcceptedRun(Confirm(u, who, confirm, rid, g, when).0, more, n.tokenHash, later);
  }

  /** A confirmation brings the waiting credential into use and changes nothing else about it. */
  lemma ConfirmIssues(u: State, who: Context, confirm: Id, rid: Id, g: Id, when: Time, p: Id)
    requires Valid(u) && (who.deviceId, OpConfirm, confirm) !in u.ledger
    requires Rotation(u, who, rid, when).Some? && Rotation(u, who, rid, when).value.0 == p
    ensures var v := Confirm(u, who, confirm, rid, g, when).0;
            InUse(v, p) && v.organizations == u.organizations &&
            v.credentials[p] == u.credentials[p].(lifecycle := Active)
  {
    RotationRotates(u, who, rid, when);
    var r := Rotation(u, who, rid, when).value;
    RotatesOnDevice(u, r.0, r.1);
    OnlyUsable(u, r.1, p);
    hide Rotation, Valid;
  }
}
