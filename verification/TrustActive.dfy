/**
 * How long a session stays active, over every run. Being active is what a retry of an operation on the session
 * needs; it is less than being usable, since suspension leaves it alone.
 */
module TrustActive {
  import opened Common
  import opened TrustModel
  import opened TrustInvariant
  import opened TrustSteps
  import opened TrustRuns
  import opened TrustSessions

  ghost predicate ActiveSession(s: State, h: Id) {
    h in s.credentials && s.credentials[h].credentialType == Session && s.credentials[h].lifecycle == Active
  }

  /** The operation confirms a rotation from the session under `h` to its successor. */
  predicate RotatesAway(s: State, op: Op, h: Id) {
    match op
    case DoConfirm(ctx, rid, prid, f, at) =>
      (ctx.deviceId, OpConfirm, rid) !in s.ledger && Rotation(s, ctx, prid, at).Some? &&
      Rotation(s, ctx, prid, at).value.1 == h
    case _ => false
  }

  /** The session is rotated away, or its device is paired again or revoked, by itself or by an administrator. */
  predicate LeavesActive(s: State, op: Op, h: Id)
    requires h in s.credentials
  {
    var d := s.credentials[h].deviceId;
    RotatesAway(s, op, h) || PairsDevice(s, op, d) || (!op.DoSuspend? && EndsDevice(s, op, d))
  }

  /** No step of the run does that. */
  ghost predicate StaysActive(s: State, ops: seq<Op>, h: Id)
    decreases |ops|
  {
    ops != [] ==> h in s.credentials && !LeavesActive(s, ops[0], h) && StaysActive(Step(s, ops[0]), ops[1..], h)
  }

  // ---------------------------------------------------------------- one step

  lemma RedeemActive(s: State, r: RedeemInput, at: Time, h: Id)
    requires Valid(s) && Fresh(s, DoRedeem(r, at)) && ActiveSession(s, h)
    ensures ActiveSession(Redeem(s, r, at).0, h) <==> !PairsDevice(s, DoRedeem(r, at), s.credentials[h].deviceId)
  {
    if NewPairing(s, r, at) {
      RefusedOrPaired(s, r, at);
      PairEffectPairs(s, r, at);
      var c := s.credentials[h];
      assert OwnedBy(c, s.devices);
      assert Frozen(c) ==> OutOfService(c, s.employees, s.devices);
    }
  }

  lemma ActivateActive(s: State, ctx: Context, c: ConsentInput, n: NewCredential, f: Id, p: Option<Policy>, at: Time,
                       h: Id)
    requires ActiveSession(s, h)
    ensures ActiveSession(Activate(s, ctx, c, n, f, p, at).0, h)
  {
  }

  lemma PrepareActive(s: State, ctx: Context, n: NewCredential, rid: Id, f: Id, at: Time, h: Id)
    requires ActiveSession(s, h)
    ensures ActiveSession(Prepare(s, ctx, n, rid, f, at).0, h)
  {
  }

  lemma ReconsentActive(s: State, ctx: Context, c: ConsentInput, f: Id, p: Option<Policy>, at: Time)
    ensures Reconsent(s, ctx, c, f, p, at).0.credentials == s.credentials
  {
  }

  lemma ConfirmEffectActive(s: State, d: Id, p: Id, o: Id, rid: Id, f: Id, at: Time, h: Id)
    requires ActiveSession(s, h) && p in s.credentials && o in s.credentials && s.credentials[p].lifecycle == Pending
    ensures ActiveSession(ConfirmEffect(s, d, p, o, rid, f, at), h) <==> h != o
  {
  }

  lemma RotationPending(s: State, ctx: Context, prid: Id, at: Time)
    requires Rotation(s, ctx, prid, at).Some?
    ensures s.credentials[Rotation(s, ctx, prid, at).value.0].lifecycle == Pending
  {
  }

  lemma ConfirmActive(s: State, ctx: Context, rid: Id, prid: Id, f: Id, at: Time, h: Id)
    requires ActiveSession(s, h)
    ensures ActiveSession(Confirm(s, ctx, rid, prid, f, at).0, h) <==>
              !RotatesAway(s, DoConfirm(ctx, rid, prid, f, at), h)
  {
    hide Rotation, ConfirmEffect, ActiveSession;
    if (ctx.deviceId, OpConfirm, rid) !in s.ledger && Rotation(s, ctx, prid, at).Some? {
      var r := Rotation(s, ctx, prid, at).value;
      RotationPending(s, ctx, prid, at);
      ConfirmEffectActive(s, ctx.deviceId, r.0, r.1, rid, f, at, h);
    }
  }

  lemma SelfRevokeActive(s: State, ctx: Context, rid: Id, f: Id, at: Time, h: Id)
    requires Valid(s) && ActiveSession(s, h)
    ensures ActiveSession(SelfRevoke(s, ctx, rid, f, at).0, h) <==>
              !EndsDevice(s, DoSelfRevoke(ctx, rid, f, at), s.credentials[h].deviceId)
  {
    if (ctx.deviceId, OpRevoke, rid) !in s.ledger && FindCurrent(s, ctx, Session, at).Some? {
      var g := FindCurrent(s, ctx, Session, at).value;
      CurrentHolds(s, ctx, Session, at);
      assert SelfRevoke(s, ctx, rid, f, at).0.credentials[h] == RevokeOne(s.credentials[h], ctx.deviceId, at);
      if ctx.deviceId == s.credentials[h].deviceId {
        OnlyUsable(s, g, h);
      }
    }
  }

  lemma AdminRevokeActive(s: State, a: AdminInput, at: Time, h: Id)
    requires ActiveSession(s, h)
    ensures ActiveSession(AdminRevoke(s, a, at).0, h) <==>
              !EndsDevice(s, DoAdminRevoke(a, at), s.credentials[h].deviceId)
  {
    assert AdminTarget(s.credentials[h], s.credentials[h].deviceId);
    assert h in AdminRevokeAll(s.credentials, a.deviceId, at);
  }

  lemma SuspendActive(s: State, o: Id, e: Id, at: Time, h: Id)
    requires ActiveSession(s, h)
    ensures ActiveSession(Suspend(s, o, e, at).0, h)
  {
  }

  /** An active session stays active exactly if the step does none of the four things. */
  lemma {:induction false} ActiveStep(s: State, op: Op, h: Id)
    requires Valid(s) && Fresh(s, op) && ActiveSession(s, h)
    ensures ActiveSession(Step(s, op), h) <==> !LeavesActive(s, op, h)
  {
    hide Valid, Activate, Confirm, AdminRevoke, Suspend, Prepare, Reconsent, Redeem, SelfRevoke, FindCurrent, Rotation;
    hide NewPairing, Fresh, RedeemDevice;
    match op
    case DoRedeem(r, at) => RedeemActive(s, r, at, h);
    case DoActivate(ctx, c, n, f, p, at) => ActivateActive(s, ctx, c, n, f, p, at, h);
    case DoReconsent(ctx, c, f, p, at) => ReconsentActive(s, ctx, c, f, p, at);
    case DoPrepare(ctx, n, rid, f, at) => PrepareActive(s, ctx, n, rid, f, at, h);
    case DoConfirm(ctx, rid, prid, f, at) => ConfirmActive(s, ctx, rid, prid, f, at, h);
    case DoSelfRevoke(ctx, rid, f, at) => SelfRevokeActive(s, ctx, rid, f, at, h);
    case DoAdminRevoke(a, at) => AdminRevokeActive(s, a, at, h);
    case DoSuspend(o, e, at) => SuspendActive(s, o, e, at, h);
    case DoCreateEmployee(_, _) =>
    case DoCreateCode(_, _, _) =>
    case DoRevokeCode(_, _, _) =>
    case DoPublishPolicy(_, _) =>
  }

  // ---------------------------------------------------------------- whole runs

  /** A session that is no longer active is never active again. */
  lemma {:induction false} NeverActiveAgain(s: State, ops: seq<Op>, h: Id)
    requires Valid(s) && LegalRun(s, ops) && h in s.credentials && Rank(s.credentials[h].lifecycle) > Rank(Active)
    ensures !ActiveSession(Run(s, ops), h)
  {
    RunKeeps(s, ops);
    assert Forward(s.credentials[h], Run(s, ops).credentials[h]);
  }

  /**
   * Over every run an active session stays active exactly until it is rotated away, its device is paired again, or
   * the device is revoked by itself or by an administrator. Suspension does not stop it.
   */
  lemma {:induction false} ActiveRun(s: State, ops: seq<Op>, h: Id)
    requires Valid(s) && LegalRun(s, ops) && ActiveSession(s, h)
    ensures ActiveSession(Run(s, ops), h) <==> StaysActive(s, ops, h)
    decreases |ops|
  {
    hide Valid, LeavesActive, Step, Fresh;
    if ops == [] {
    } else {
      var t := Step(s, ops[0]);
      StepKeeps(s, ops[0]);
      ActiveStep(s, ops[0], h);
      assert Forward(s.credentials[h], t.credentials[h]);
      if LeavesActive(s, ops[0], h) {
        NeverActiveAgain(t, ops[1..], h);
      } else {
        ActiveRun(t, ops[1..], h);
      }
    }
  }
}
