/**
 * How many usable credentials a device has, over every run: one from its pairing until the next
 * revocation or suspension, none otherwise.
 */
module TrustSessions {
  import opened Common
  import opened TrustModel
  import opened TrustInvariant
  import opened TrustSteps
  import opened TrustRuns

  ghost predicate UsableOn(s: State, d: Id, h: Id) {
    h in s.credentials && s.credentials[h].deviceId == d && Usable(s.credentials[h])
  }

  function UsableSet(s: State, d: Id): set<Id> {
    set h: Id | h in s.credentials && s.credentials[h].deviceId == d && Usable(s.credentials[h])
  }

  ghost predicate Live(s: State, d: Id) {
    exists h: Id :: UsableOn(s, d, h)
  }

  /** The operation pairs device `d` anew. */
  predicate PairsDevice(s: State, op: Op, d: Id) {
    op.DoRedeem? && NewPairing(s, op.r, op.at) &&
    RedeemDevice(s, op.r, CodeOf(s, op.r.codeHash).organizationId) == d
  }

  /** The operation revokes or suspends device `d`. */
  predicate EndsDevice(s: State, op: Op, d: Id) {
    match op
    case DoSelfRevoke(ctx, rid, f, at) =>
      (ctx.deviceId, OpRevoke, rid) !in s.ledger && FindCurrent(s, ctx, Session, at).Some? && ctx.deviceId == d
    case DoAdminRevoke(a, at) =>
      var r := AdminRevoke(s, a, at).1;
      r.AdminReply? && !r.replayed && a.deviceId == d
    case DoSuspend(o, e, at) => Suspend(s, o, e, at).1 && d in SuspendedDevices(s, o, e)
    case _ => false
  }

  lemma CountIsLive(s: State, d: Id)
    requires Valid(s)
    ensures |UsableSet(s, d)| == if Live(s, d) then 1 else 0
  {
    if Live(s, d) {
      var h: Id :| UsableOn(s, d, h);
      forall g: Id | g in UsableSet(s, d) ensures g == h {
        assert Usable(s.credentials[g]) && Usable(s.credentials[h]);
      }
      assert UsableSet(s, d) == {h};
    } else {
      forall g: Id | g in UsableSet(s, d) ensures false {
        assert UsableOn(s, d, g);
      }
      assert UsableSet(s, d) == {};
    }
  }

  // ---------------------------------------------------------------- one step

  /** Credentials of `d` are the same in both states. */
  lemma SameLive(s: State, t: State, d: Id)
    requires forall h {:trigger UsableOn(s, d, h)} :: UsableOn(s, d, h) <==> UsableOn(t, d, h)
    ensures Live(s, d) <==> Live(t, d)
  {
    if Live(s, d) {
      var h: Id :| UsableOn(s, d, h);
      assert UsableOn(t, d, h);
    }
    if Live(t, d) {
      var h: Id :| UsableOn(t, d, h);
      assert UsableOn(s, d, h) <==> UsableOn(t, d, h);
    }
  }

  lemma ActivateLive(s: State, ctx: Context, c: ConsentInput, n: NewCredential, f: Id, p: Option<Policy>, at: Time,
                     d: Id)
    requires Valid(s) && n.id !in s.hashById
    ensures Live(Activate(s, ctx, c, n, f, p, at).0, d) <==> Live(s, d)
  {
    var t := Activate(s, ctx, c, n, f, p, at).0;
    if Activate(s, ctx, c, n, f, p, at).1.Reply? && (ctx.deviceId, OpActivate, c.requestId) !in s.ledger {
      var b := FindCurrent(s, ctx, Bootstrap, at).value;
      if d == ctx.deviceId {
        assert UsableOn(s, d, b) && UsableOn(t, d, n.tokenHash);
      } else {
        SameLive(s, t, d);
      }
    }
  }

  lemma PrepareLive(s: State, ctx: Context, n: NewCredential, rid: Id, f: Id, at: Time, d: Id)
    requires Valid(s)
    ensures Live(Prepare(s, ctx, n, rid, f, at).0, d) <==> Live(s, d)
  {
    SameLive(s, Prepare(s, ctx, n, rid, f, at).0, d);
  }

  lemma ConfirmLive(s: State, ctx: Context, rid: Id, prid: Id, f: Id, at: Time, d: Id)
    requires Valid(s)
    ensures Live(Confirm(s, ctx, rid, prid, f, at).0, d) <==> Live(s, d)
  {
    var t := Confirm(s, ctx, rid, prid, f, at).0;
    if (ctx.deviceId, OpConfirm, rid) !in s.ledger && Rotation(s, ctx, prid, at).Some? {
      RotationRotates(s, ctx, prid, at);
      var r := Rotation(s, ctx, prid, at).value;
      RotatesOnDevice(s, r.0, r.1);
      if d == ctx.deviceId {
        OnlyUsable(s, r.1, r.0);
        assert UsableOn(s, d, r.1) && UsableOn(t, d, r.0);
      } else {
        SameLive(s, t, d);
      }
    }
  }

  lemma SelfRevokeLive(s: State, ctx: Context, rid: Id, f: Id, at: Time, d: Id)
    requires Valid(s)
    ensures Live(SelfRevoke(s, ctx, rid, f, at).0, d) <==>
              Live(s, d) && !EndsDevice(s, DoSelfRevoke(ctx, rid, f, at), d)
  {
    var t := SelfRevoke(s, ctx, rid, f, at).0;
    if d != ctx.deviceId {
      SameLive(s, t, d);
    }
  }

  /** The sweep leaves nothing usable on its own device, and everything as it was elsewhere. */
  lemma AdminSweepUsable(s: State, t: State, target: Id, at: Time, d: Id)
    requires t.credentials == AdminRevokeAll(s.credentials, target, at)
    ensures Live(t, d) <==> Live(s, d) && d != target
  {
    forall h: Id ensures UsableOn(t, d, h) <==> UsableOn(s, d, h) && d != target {
      assert h in s.credentials ==> t.credentials[h] == AdminRevokeOne(s.credentials[h], target, at);
    }
    if d != target {
      SameLive(s, t, d);
    }
  }

  lemma AdminRevokeLive(s: State, a: AdminInput, at: Time, d: Id)
    ensures Live(AdminRevoke(s, a, at).0, d) <==> Live(s, d) && !EndsDevice(s, DoAdminRevoke(a, at), d)
  {
    var (t, answer) := AdminRevoke(s, a, at);
    if answer.AdminReply? && !answer.replayed {
      AdminSweepUsable(s, t, a.deviceId, at, d);
    }
  }

  lemma SuspendLive(s: State, o: Id, e: Id, at: Time, d: Id)
    requires Valid(s)
    ensures Live(Suspend(s, o, e, at).0, d) <==> Live(s, d) && !EndsDevice(s, DoSuspend(o, e, at), d)
  {
    var t := Suspend(s, o, e, at).0;
    if Suspend(s, o, e, at).1 && d !in SuspendedDevices(s, o, e) {
      SameLive(s, t, d);
    }
  }

  lemma RedeemLive(s: State, r: RedeemInput, at: Time, d: Id)
    requires Valid(s) && Fresh(s, DoRedeem(r, at))
    ensures Live(Redeem(s, r, at).0, d) <==> PairsDevice(s, DoRedeem(r, at), d) || Live(s, d)
  {
    if NewPairing(s, r, at) {
      var t := PairEffect(s, r, at);
      RefusedOrPaired(s, r, at);
      PairEffectPairs(s, r, at);
      if PairsDevice(s, DoRedeem(r, at), d) {
        assert UsableOn(t, d, r.bootstrap.tokenHash);
      } else {
        SameLive(s, t, d);
      }
    }
  }

  /**
   * One step decides whether a device has a usable credential: pairing gives it one, revocation and
   * suspension take it away, and activation, renewed consent and rotation leave that as it was.
   */
  lemma LiveStep(s: State, op: Op, d: Id)
    requires Valid(s) && Fresh(s, op)
    ensures Live(Step(s, op), d) <==> PairsDevice(s, op, d) || (Live(s, d) && !EndsDevice(s, op, d))
  {
    match op
    case DoRedeem(r, at) => RedeemLive(s, r, at, d);
    case DoActivate(ctx, c, n, f, p, at) => ActivateLive(s, ctx, c, n, f, p, at, d);
    case DoReconsent(ctx, c, f, p, at) => SameLive(s, Step(s, op), d);
    case DoPrepare(ctx, n, rid, f, at) => PrepareLive(s, ctx, n, rid, f, at, d);
    case DoConfirm(ctx, rid, prid, f, at) => ConfirmLive(s, ctx, rid, prid, f, at, d);
    case DoSelfRevoke(ctx, rid, f, at) => SelfRevokeLive(s, ctx, rid, f, at, d);
    case DoAdminRevoke(a, at) => AdminRevokeLive(s, a, at, d);
    case DoSuspend(o, e, at) => SuspendLive(s, o, e, at, d);
    case DoCreateEmployee(id, o) => SameLive(s, Step(s, op), d);
    case DoCreateCode(_, _, _) => SameLive(s, Step(s, op), d);
    case DoRevokeCode(_, _, _) => SameLive(s, Step(s, op), d);
    case DoPublishPolicy(_, _) => SameLive(s, Step(s, op), d);
  }

  // ---------------------------------------------------------------- whole runs

  /** Replaying only the pairings and endings of a device. */
  function LiveAfter(s: State, ops: seq<Op>, d: Id, live: bool): bool
    decreases |ops|
  {
    if ops == [] then live
    else LiveAfter(Step(s, ops[0]), ops[1..], d, PairsDevice(s, ops[0], d) || (live && !EndsDevice(s, ops[0], d)))
  }

  lemma {:induction false} LiveRun(s: State, ops: seq<Op>, d: Id)
    requires Valid(s) && LegalRun(s, ops)
    ensures Live(Run(s, ops), d) <==> LiveAfter(s, ops, d, Live(s, d))
    decreases |ops|
  {
    if ops == [] {
    } else {
      StepKeeps(s, ops[0]);
      LiveStep(s, ops[0], d);
      LiveRun(Step(s, ops[0]), ops[1..], d);
    }
  }

  /**
   * Over every run a device has at most one usable credential, and it has exactly one if and only if
   * its last pairing or ending was a pairing, whatever other operations are interleaved.
   */
  lemma UsableCount(s: State, ops: seq<Op>, d: Id)
    requires Valid(s) && LegalRun(s, ops)
    ensures |UsableSet(Run(s, ops), d)| == if LiveAfter(s, ops, d, Live(s, d)) then 1 else 0
  {
    RunKeeps(s, ops);
    LiveRun(s, ops, d);
    CountIsLive(Run(s, ops), d);
  }

  /** No step of the run ends the device. */
  predicate NeverEnds(s: State, ops: seq<Op>, d: Id)
    decreases |ops|
  {
    ops != [] ==> !EndsDevice(s, ops[0], d) && NeverEnds(Step(s, ops[0]), ops[1..], d)
  }

  lemma {:induction false} LiveWhileNotEnded(s: State, ops: seq<Op>, d: Id)
    requires NeverEnds(s, ops, d)
    ensures LiveAfter(s, ops, d, true)
    decreases |ops|
  {
    if ops == [] {
    } else {
      LiveWhileNotEnded(Step(s, ops[0]), ops[1..], d);
    }
  }

  /** From a pairing until the next revocation or suspension there is exactly one usable credential. */
  lemma {:induction false} OneFromPairingToEnding(s: State, op: Op, ops: seq<Op>, d: Id)
    requires Valid(s) && Fresh(s, op) && PairsDevice(s, op, d)
    requires LegalRun(Step(s, op), ops) && NeverEnds(Step(s, op), ops, d)
    ensures |UsableSet(Run(Step(s, op), ops), d)| == 1
  {
    StepKeeps(s, op);
    LiveStep(s, op, d);
    LiveWhileNotEnded(Step(s, op), ops, d);
    UsableCount(Step(s, op), ops, d);
  }

  // ---------------------------------------------------------------- rotations

  /**
   * Of all credentials prepared from one session at most one is ever activated: once a rotation of the
   * session is confirmed, no later confirmation of another of its pending credentials succeeds.
   */
  lemma {:induction false} OneSuccessor(s: State, ctx: Context, rid: Id, prid: Id, f: Id, at: Time, ops: seq<Op>,
                     other: Context, rid2: Id, prid2: Id, f2: Id, at2: Time)
    requires Valid(s) && Confirm(s, ctx, rid, prid, f, at).1.Reply? && !Confirm(s, ctx, rid, prid, f, at).1.replayed
    requires LegalRun(Confirm(s, ctx, rid, prid, f, at).0, ops)
    ensures var t := Confirm(s, ctx, rid, prid, f, at).0;
            var u := Run(t, ops);
            var pending := t.credentials[t.hashById[ctx.credentialId]];
            var second := Confirm(u, other, rid2, prid2, f2, at2).1;
            second.Reply? && !second.replayed ==>
              u.credentials[u.hashById[other.credentialId]].rotatedFrom != pending.rotatedFrom
  {
    hide LegalRun, Run;
    var t := Confirm(s, ctx, rid, prid, f, at).0;
    var u := Run(t, ops);
    StepKeeps(s, DoConfirm(ctx, rid, prid, f, at));
    RunKeeps(t, ops);
    RotationRotates(s, ctx, prid, at);
    var r := Rotation(s, ctx, prid, at).value;
    var key := (ctx.deviceId, OpConfirm, rid);
    assert EntryBacked(key, u.ledger[key], u.credentials, u.hashById);
    assert Forward(t.credentials[r.0], u.credentials[r.0]) && Forward(t.credentials[r.1], u.credentials[r.1]);
    if (other.deviceId, OpConfirm, rid2) !in u.ledger && Rotation(u, other, prid2, at2).Some? {
      RotationRotates(u, other, prid2, at2);
    }
  }

  /** In every reachable state two confirmed rotations never replaced the same session. */
  lemma RotationsLinear(s: State, ops: seq<Op>, j: (Id, Operation, Id), k: (Id, Operation, Id))
    requires Valid(s) && LegalRun(s, ops)
    requires j in Run(s, ops).ledger && k in Run(s, ops).ledger && j.1 == OpConfirm && k.1 == OpConfirm && j != k
    ensures var u := Run(s, ops);
            Replaced(u.ledger[j], u.credentials, u.hashById) != Replaced(u.ledger[k], u.credentials, u.hashById)
  {
    RunKeeps(s, ops);
    var u := Run(s, ops);
    assert LinearRotations(u.ledger, u.credentials, u.hashById);
  }
}
