/**
 * Receipts outside the device ledger: what a redemption or a recovery by an administrator answered is
 * answered again in every later state, a pairing code pairs once, and consent is current once given.
 */
module TrustReceipts {
  import opened Common
  import opened TrustModel
  import opened TrustInvariant

  /** Recorded redemptions and device recoveries are never rewritten. */
  ghost predicate ReceiptsKept(s: State, t: State) {
    && (forall k {:trigger s.redemptions[k]} :: k in s.redemptions ==>
          k in t.redemptions && t.redemptions[k] == s.redemptions[k])
    && (forall k {:trigger s.adminRevocations[k]} ::
          k in s.adminRevocations ==> k in t.adminRevocations && t.adminRevocations[k] == s.adminRevocations[k])
  }

  /** The step keeps no receipt and touches no pairing code. */
  predicate SameReceipts(s: State, t: State) {
    t.redemptions == s.redemptions && t.adminRevocations == s.adminRevocations &&
    t.pairingCodes == s.pairingCodes && t.pairingIdByHash == s.pairingIdByHash
  }

  lemma {:induction false} SameStateReceipts(s: State)
    ensures SameReceipts(s, s) && ReceiptsKept(s, s)
  {
  }

  lemma {:induction false} ActivateEffectReceipts(s: State, ctx: Context, b: Id, c: ConsentInput, n: NewCredential,
          f: Id, at: Time)
    requires b in s.credentials && ctx.deviceId in s.devices && ctx.employeeId in s.employees && ctx.mode in s.policies
    ensures SameReceipts(s, ActivateEffect(s, ctx, b, c, n, f, at))
  {
  }

  lemma {:induction false} ActivateReceipts(s: State, ctx: Context, c: ConsentInput, n: NewCredential, f: Id,
          p: Option<Policy>, at: Time)
    ensures SameReceipts(s, Activate(s, ctx, c, n, f, p, at).0)
  {
    hide ActivateEffect, SameReceipts;
    SameStateReceipts(s);
    var b := FindCurrent(s, ctx, Bootstrap, at);
    if b.Some? && ctx.mode in s.policies {
      ActivateEffectReceipts(s, ctx, b.value, c, n, f, at);
    }
  }

  lemma {:induction false} PrepareEffectReceipts(s: State, ctx: Context, n: NewCredential, rid: Id, f: Id, at: Time)
    ensures SameReceipts(s, PrepareEffect(s, ctx, n, rid, f, at))
  {
  }

  lemma {:induction false} PrepareReceipts(s: State, ctx: Context, n: NewCredential, rid: Id, f: Id, at: Time)
    ensures SameReceipts(s, Prepare(s, ctx, n, rid, f, at).0)
  {
    hide FindCurrent, PrepareEffect, SameReceipts;
    SameStateReceipts(s);
    PrepareEffectReceipts(s, ctx, n, rid, f, at);
  }

  lemma {:induction false} ReconsentEffectReceipts(s: State, ctx: Context, c: ConsentInput, f: Id, at: Time)
    requires ctx.deviceId in s.devices && ctx.mode in s.policies
    ensures SameReceipts(s, ReconsentEffect(s, ctx, c, f, at))
  {
  }

  lemma {:induction false} ReconsentReceipts(s: State, ctx: Context, c: ConsentInput, f: Id, p: Option<Policy>,
                                             at: Time)
    ensures SameReceipts(s, Reconsent(s, ctx, c, f, p, at).0)
  {
    hide ReconsentEffect, SameReceipts;
    SameStateReceipts(s);
    if ctx.deviceId in s.devices && ctx.mode in s.policies {
      ReconsentEffectReceipts(s, ctx, c, f, at);
    }
  }

  lemma {:induction false} ConfirmEffectReceipts(s: State, d: Id, p: Id, o: Id, rid: Id, f: Id, at: Time)
    requires p in s.credentials && o in s.credentials
    ensures SameReceipts(s, ConfirmEffect(s, d, p, o, rid, f, at))
  {
  }

  lemma {:induction false} ConfirmReceipts(s: State, ctx: Context, rid: Id, prid: Id, f: Id, at: Time)
    ensures SameReceipts(s, Confirm(s, ctx, rid, prid, f, at).0)
  {
    hide Rotation, ConfirmEffect, SameReceipts;
    SameStateReceipts(s);
    var r := Rotation(s, ctx, prid, at);
    if r.Some? {
      ConfirmEffectReceipts(s, ctx.deviceId, r.value.0, r.value.1, rid, f, at);
    }
  }

  lemma {:induction false} SelfRevokeReceipts(s: State, ctx: Context, rid: Id, f: Id, at: Time)
    ensures SameReceipts(s, SelfRevoke(s, ctx, rid, f, at).0)
  {
    hide SelfRevokeEffect, SameReceipts, FindCurrent;
    SameStateReceipts(s);
    if ctx.deviceId in s.devices && ctx.deviceId in s.consents {
      SelfRevokeEffectReceipts(s, ctx, rid, f, at);
    }
    CurrentIsHoused(s, ctx, at);
  }

  lemma SelfRevokeEffectReceipts(s: State, ctx: Context, rid: Id, f: Id, at: Time)
    requires ctx.deviceId in s.devices && ctx.deviceId in s.consents
    ensures SameReceipts(s, SelfRevokeEffect(s, ctx, rid, f, at))
  {
    hide RevokeAll;
  }

  lemma CurrentIsHoused(s: State, ctx: Context, at: Time)
    ensures FindCurrent(s, ctx, Session, at).Some? ==> ctx.deviceId in s.devices && ctx.deviceId in s.consents
  {
  }

  lemma {:induction false} SuspendReceipts(s: State, o: Id, e: Id, at: Time)
    ensures SameReceipts(s, Suspend(s, o, e, at).0)
  {
    hide FreezeAll, SuspendedDevices;
  }

  lemma {:induction false} PairEffectReceipts(s: State, r: RedeemInput, at: Time)
    requires CodeKnown(s, r.codeHash) && CodeOf(s, r.codeHash).employeeId in s.employees &&
        r.requestId !in s.redemptions
    ensures ReceiptsKept(s, PairEffect(s, r, at))
  {
    hide PairedCredentials, PairedDevice, RedeemDevice, ExistingDevice, AddDevice;
  }

  lemma {:induction false} RedeemReceipts(s: State, r: RedeemInput, at: Time)
    ensures ReceiptsKept(s, Redeem(s, r, at).0)
  {
    hide PairEffect, PairedDevice, RedeemDevice, ReceiptsKept;
    SameStateReceipts(s);
    if NewPairing(s, r, at) {
      PairEffectReceipts(s, r, at);
    }
  }

  lemma {:induction false} AdminEffectReceipts(s: State, a: AdminInput, at: Time)
    requires a.deviceId in s.devices && a.organizationId in s.audits &&
        (a.organizationId, a.requestId) !in s.adminRevocations
    ensures ReceiptsKept(s, AdminRevokeEffect(s, a, at))
  {
    hide AdminRevokeAll, AdminRevokeResult, ConsentInForce;
  }

  lemma {:induction false} AdminReceipts(s: State, a: AdminInput, at: Time)
    ensures ReceiptsKept(s, AdminRevoke(s, a, at).0)
  {
    hide AdminRevokeEffect, AdminRevokeResult, ReceiptsKept;
    SameStateReceipts(s);
    if a.deviceId in s.devices && a.organizationId in s.audits &&
       (a.organizationId, a.requestId) !in s.adminRevocations {
      AdminEffectReceipts(s, a, at);
    }
  }

  /** All but redemptions, recoveries by an administrator and changes of pairing codes. */
  lemma {:induction false} OtherStepReceipts(s: State, op: Op)
    requires !op.DoRedeem? && !op.DoAdminRevoke? && !op.DoCreateCode? && !op.DoRevokeCode?
    ensures SameReceipts(s, Step(s, op))
  {
    hide Activate, Reconsent, Prepare, Confirm, SelfRevoke, Suspend;
    match op
    case DoActivate(ctx, c, n, f, p, at) => ActivateReceipts(s, ctx, c, n, f, p, at);
    case DoReconsent(ctx, c, f, p, at) => ReconsentReceipts(s, ctx, c, f, p, at);
    case DoPrepare(ctx, n, rid, f, at) => PrepareReceipts(s, ctx, n, rid, f, at);
    case DoConfirm(ctx, rid, prid, f, at) => ConfirmReceipts(s, ctx, rid, prid, f, at);
    case DoSelfRevoke(ctx, rid, f, at) => SelfRevokeReceipts(s, ctx, rid, f, at);
    case DoSuspend(o, e, at) => SuspendReceipts(s, o, e, at);
    case _ =>
  }

  lemma {:induction false} StepKeepsReceipts(s: State, op: Op)
    ensures ReceiptsKept(s, Step(s, op))
  {
    if op.DoRedeem? {
      RedeemReceipts(s, op.r, op.at);
    } else if op.DoAdminRevoke? {
      AdminReceipts(s, op.admin, op.at);
    } else if op.DoCreateCode? || op.DoRevokeCode? {
      CodeStepReceipts(s, op);
    } else {
      OtherStepReceipts(s, op);
      SameMeansKept(s, Step(s, op));
    }
    hide Activate, Reconsent, Prepare, Confirm, SelfRevoke, Suspend, Redeem, AdminRevoke, ReceiptsKept;
  }

  lemma {:induction false} CodeStepReceipts(s: State, op: Op)
    requires op.DoCreateCode? || op.DoRevokeCode?
    ensures ReceiptsKept(s, Step(s, op))
  {
  }

  lemma {:induction false} SameMeansKept(s: State, t: State)
    requires SameReceipts(s, t)
    ensures ReceiptsKept(s, t)
  {
  }

  lemma {:induction false} RunKeepsReceipts(s: State, ops: seq<Op>)
    ensures ReceiptsKept(s, Run(s, ops))
    decreases |ops|
  {
    hide Step;
    if ops == [] {
    } else {
      StepKeepsReceipts(s, ops[0]);
      RunKeepsReceipts(Step(s, ops[0]), ops[1..]);
    }
  }

  /** A successful redemption is answered from its record in every later state, which it does not change. */
  lemma {:induction false} RedemptionReplays(s: State, r: RedeemInput, at: Time, ops: seq<Op>, later: Time)
    requires Valid(s) && NewPairing(s, r, at)
    ensures var (t, answer) := Redeem(s, r, at);
            var u := Run(t, ops);
            answer.Redeemed? && Redeem(u, r, later) == (u, answer.(replayed := true))
  {
    hide Run, PairedCredentials;
    var t := Redeem(s, r, at).0;
    PairedInstallation(s, r, at);
    RunKeepsReceipts(t, ops);
    assert r.requestId in t.redemptions && r.requestId in Run(t, ops).redemptions;
    assert t.redemptions[r.requestId] == Run(t, ops).redemptions[r.requestId];
    hide Valid, RedeemRefusal;
  }

  /** The device that a redemption pairs carries the installation that asked for it. */
  lemma {:induction false} PairedInstallation(s: State, r: RedeemInput, at: Time)
    requires Valid(s) && RedeemRefusal(s, r, at).None?
    ensures CodeKnown(s, r.codeHash) && PairedDevice(s, r, CodeOf(s, r.codeHash)).installationId == r.installationId
  {
    var code := CodeOf(s, r.codeHash);
    assert LeadsHome(s.devicesByInstallation, s.devices, (code.organizationId, r.installationId));
  }

  /** A device recovery by an administrator is answered from its record in every later state. */
  lemma {:induction false} AdminRevokeReplays(s: State, a: AdminInput, at: Time, ops: seq<Op>, later: Time)
    requires AdminRevoke(s, a, at).1.AdminReply?
    ensures var (t, answer) := AdminRevoke(s, a, at);
            var u := Run(t, ops);
            AdminRevoke(u, a, later) == (u, AdminReply(answer.result, true))
  {
    hide Run, AdminRevokeAll, AdminTargets, ConsentInForce;
    var t := AdminRevoke(s, a, at).0;
    RunKeepsReceipts(t, ops);
    var key := (a.organizationId, a.requestId);
    assert key in t.adminRevocations;
    assert t.adminRevocations[key] == Run(t, ops).adminRevocations[key];
  }

  // ---------------------------------------------------------------- pairing codes

  /** The operation stores a code under this hash or identifier. */
  predicate Reissues(op: Op, codeHash: Id, id: Id) {
    op.DoCreateCode? && (op.codeHash == codeHash || op.codeId == id)
  }

  ghost predicate CodeIs(s: State, codeHash: Id, id: Id, code: PairingCode) {
    codeHash in s.pairingIdByHash && s.pairingIdByHash[codeHash] == id && id in s.pairingCodes &&
      s.pairingCodes[id] == code
  }

  lemma {:induction false} RedeemKeepsCode(s: State, r: RedeemInput, at: Time, codeHash: Id, id: Id, code: PairingCode)
    requires CodeIs(s, codeHash, id, code) && code.consumedAt.Some?
    ensures CodeIs(Redeem(s, r, at).0, codeHash, id, code)
  {
    hide PairedCredentials, PairedDevice, RedeemDevice, ExistingDevice, AddDevice;
  }

  lemma {:induction false} AdminKeepsCode(s: State, a: AdminInput, at: Time, codeHash: Id, id: Id, code: PairingCode)
    requires CodeIs(s, codeHash, id, code)
    ensures CodeIs(AdminRevoke(s, a, at).0, codeHash, id, code)
  {
    hide AdminRevokeAll, AdminRevokeResult, ConsentInForce;
  }

  lemma {:induction false} StepKeepsCode(s: State, op: Op, codeHash: Id, id: Id, code: PairingCode)
    requires CodeIs(s, codeHash, id, code) && code.consumedAt.Some? && !Reissues(op, codeHash, id)
    ensures CodeIs(Step(s, op), codeHash, id, code)
  {
    if op.DoRedeem? {
      RedeemKeepsCode(s, op.r, op.at, codeHash, id, code);
    } else if op.DoAdminRevoke? {
      AdminKeepsCode(s, op.admin, op.at, codeHash, id, code);
    } else if !op.DoCreateCode? && !op.DoRevokeCode? {
      OtherStepReceipts(s, op);
    }
    hide Activate, Reconsent, Prepare, Confirm, SelfRevoke, Suspend, Redeem, AdminRevoke;
  }

  lemma {:induction false} RunKeepsCode(s: State, ops: seq<Op>, codeHash: Id, id: Id, code: PairingCode)
    requires CodeIs(s, codeHash, id, code) && code.consumedAt.Some?
    requires forall i :: 0 <= i < |ops| ==> !Reissues(ops[i], codeHash, id)
    ensures CodeIs(Run(s, ops), codeHash, id, code)
    decreases |ops|
  {
    hide Step, CodeIs;
    if ops == [] {
    } else {
      StepKeepsCode(s, ops[0], codeHash, id, code);
      RunKeepsCode(Step(s, ops[0]), ops[1..], codeHash, id, code);
    }
  }

  lemma {:induction false} PairingConsumes(s: State, r: RedeemInput, at: Time)
    requires NewPairing(s, r, at)
    ensures CodeKnown(s, r.codeHash)
    ensures CodeIs(Redeem(s, r, at).0, r.codeHash, s.pairingIdByHash[r.codeHash],
                   CodeOf(s, r.codeHash).(consumedAt := Some(at)))
    ensures CodeOf(s, r.codeHash).revokedAt.None?
  {
    hide PairedCredentials, PairedDevice, RedeemDevice, AddDevice;
  }

  lemma {:induction false} ConsumedIsRefused(s: State, r: RedeemInput, at: Time, id: Id, code: PairingCode)
    requires CodeIs(s, r.codeHash, id, code) && code.consumedAt.Some? && code.revokedAt.None? &&
        r.requestId !in s.redemptions
    ensures Redeem(s, r, at) == (s, CodeConsumed)
  {
    hide PairEffect, PairedDevice, RedeemDevice;
  }

  /**
   * A pairing code pairs one device: in every later state any other request with it is refused as consumed,
   * unless a new code was stored under its hash or identifier.
   */
  lemma {:induction false} CodePairsOnce(s: State, r: RedeemInput, at: Time, ops: seq<Op>, other: RedeemInput,
                                         later: Time)
    requires NewPairing(s, r, at) && other.codeHash == r.codeHash
    requires r.codeHash in s.pairingIdByHash
    requires forall i :: 0 <= i < |ops| ==> !Reissues(ops[i], r.codeHash, s.pairingIdByHash[r.codeHash])
    requires other.requestId !in Run(Redeem(s, r, at).0, ops).redemptions
    ensures var u := Run(Redeem(s, r, at).0, ops);
            Redeem(u, other, later) == (u, CodeConsumed)
  {
    hide Redeem, CodeIs, RedeemRefusal, Run;
    PairingConsumes(s, r, at);
    var id, code := s.pairingIdByHash[r.codeHash], CodeOf(s, r.codeHash).(consumedAt := Some(at));
    RunKeepsCode(Redeem(s, r, at).0, ops, r.codeHash, id, code);
    ConsumedIsRefused(Run(Redeem(s, r, at).0, ops), other, later, id, code);
  }

  // ---------------------------------------------------------------- consent

  /** Activation and renewed consent leave consent current, under the policy in force. */
  lemma {:induction false} ConsentMadeCurrent(s: State, ctx: Context, c: ConsentInput, n: NewCredential, f: Id,
          p: Option<Policy>, at: Time)
    requires Valid(s)
    ensures Activate(s, ctx, c, n, f, p, at).1.Reply? && !Activate(s, ctx, c, n, f, p, at).1.replayed ==>
              ConsentCurrent(Activate(s, ctx, c, n, f, p, at).0, ctx.deviceId)
    ensures Reconsent(s, ctx, c, f, p, at).1.Reply? && !Reconsent(s, ctx, c, f, p, at).1.replayed ==>
              ConsentCurrent(Reconsent(s, ctx, c, f, p, at).0, ctx.deviceId)
  {
    hide Valid;
  }
}
