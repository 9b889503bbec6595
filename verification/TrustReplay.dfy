/**
 * Replays: a completed operation is answered again from the ledger, through the same
 * authentication that a retry goes through, for as long as its credential stays in the state
 * in which the operation left it.
 */
module TrustReplay {
  import opened Common
  import opened TrustModel
  import opened TrustInvariant
  import opened TrustSteps
  import opened TrustRuns
  import opened TrustSessions
  import opened TrustActive

  /** What a mobile request goes through first: a stored replay, or else the current credential. */
  function Authenticate(s: State, h: Id, t: CredentialType, op: Operation, rid: Id, f: Id, at: Time): Option<Context> {
    var replay := ResolveReplay(s, h, t, op, rid, f);
    if replay.Some? then replay else ResolveCredential(s, h, t, at)
  }

  /** The operation resets device `d`: it is paired again, or its session revokes itself. */
  predicate ResetsDevice(s: State, op: Op, d: Id) {
    PairsDevice(s, op, d) || (op.DoSelfRevoke? && EndsDevice(s, op, d))
  }

  predicate NeverResets(s: State, ops: seq<Op>, d: Id)
    decreases |ops|
  {
    ops != [] ==> !ResetsDevice(s, ops[0], d) && NeverResets(Step(s, ops[0]), ops[1..], d)
  }

  // ---------------------------------------------------------------- consumed credentials

  lemma {:induction false} RedeemConsumed(s: State, r: RedeemInput, at: Time, b: Id)
    requires Valid(s) && Fresh(s, DoRedeem(r, at)) && b in s.credentials && s.credentials[b].lifecycle == Consumed
    ensures var t := Redeem(s, r, at).0;
            b in t.credentials &&
            (t.credentials[b].lifecycle == Consumed <==> !PairsDevice(s, DoRedeem(r, at), s.credentials[b].deviceId))
  {
    if NewPairing(s, r, at) {
      RefusedOrPaired(s, r, at);
      PairEffectPairs(s, r, at);
      var c := s.credentials[b];
      assert OwnedBy(c, s.devices);
      assert Frozen(c) ==> OutOfService(c, s.employees, s.devices);
    }
  }

  lemma {:induction false} SelfRevokeConsumed(s: State, ctx: Context, rid: Id, f: Id, at: Time, b: Id)
    requires Valid(s) && b in s.credentials && s.credentials[b].lifecycle == Consumed
    ensures var t := SelfRevoke(s, ctx, rid, f, at).0;
            b in t.credentials && (t.credentials[b].lifecycle == Consumed <==>
              !EndsDevice(s, DoSelfRevoke(ctx, rid, f, at), s.credentials[b].deviceId))
  {
    if (ctx.deviceId, OpRevoke, rid) !in s.ledger && FindCurrent(s, ctx, Session, at).Some? {
      var h := FindCurrent(s, ctx, Session, at).value;
      CurrentHolds(s, ctx, Session, at);
      assert SelfRevoke(s, ctx, rid, f, at).0.credentials[b] == RevokeOne(s.credentials[b], ctx.deviceId, at);
      if ctx.deviceId == s.credentials[b].deviceId {
        OnlyUsable(s, h, b);
      }
    }
  }

  lemma {:induction false} ActivateConsumed(s: State, ctx: Context, c: ConsentInput, n: NewCredential, f: Id,
          p: Option<Policy>, at: Time, b: Id)
    requires b in s.credentials && s.credentials[b].lifecycle == Consumed
    ensures var t := Activate(s, ctx, c, n, f, p, at).0; b in t.credentials && t.credentials[b] == s.credentials[b]
  {
  }

  lemma {:induction false} ConfirmConsumed(s: State, ctx: Context, rid: Id, prid: Id, f: Id, at: Time, b: Id)
    requires b in s.credentials && s.credentials[b].lifecycle == Consumed
    ensures var t := Confirm(s, ctx, rid, prid, f, at).0; b in t.credentials && t.credentials[b] == s.credentials[b]
  {
  }

  lemma {:induction false} AdminRevokeConsumed(s: State, a: AdminInput, at: Time, b: Id)
    requires b in s.credentials && s.credentials[b].lifecycle == Consumed
    ensures var t := AdminRevoke(s, a, at).0; b in t.credentials && t.credentials[b] == s.credentials[b]
  {
    assert !AdminTarget(s.credentials[b], a.deviceId);
  }

  lemma {:induction false} SuspendConsumed(s: State, o: Id, e: Id, at: Time, b: Id)
    requires b in s.credentials && s.credentials[b].lifecycle == Consumed
    ensures var t := Suspend(s, o, e, at).0; b in t.credentials && t.credentials[b].lifecycle == Consumed
  {
  }

  lemma {:induction false} PrepareConsumed(s: State, ctx: Context, n: NewCredential, rid: Id, f: Id, at: Time, b: Id)
    requires b in s.credentials && s.credentials[b].lifecycle == Consumed
    ensures var t := Prepare(s, ctx, n, rid, f, at).0; b in t.credentials && t.credentials[b] == s.credentials[b]
  {
  }

  lemma {:induction false} ReconsentConsumed(s: State, ctx: Context, c: ConsentInput, f: Id, p: Option<Policy>,
                                             at: Time)
    ensures Reconsent(s, ctx, c, f, p, at).0.credentials == s.credentials
  {
  }

  /** Operations other than pairing and self-revocation do not touch consumed credentials' state. */
  lemma {:induction false} OtherStepConsumed(s: State, op: Op, b: Id)
    requires b in s.credentials && s.credentials[b].lifecycle == Consumed
    requires !op.DoRedeem? && !op.DoSelfRevoke?
    ensures var t := Step(s, op); b in t.credentials && t.credentials[b].lifecycle == Consumed
  {
    hide Activate, Confirm, AdminRevoke, Suspend, Prepare, Reconsent, Redeem, SelfRevoke;
    match op
    case DoActivate(ctx, c, n, f, p, at) => ActivateConsumed(s, ctx, c, n, f, p, at, b);
    case DoConfirm(ctx, rid, prid, f, at) => ConfirmConsumed(s, ctx, rid, prid, f, at, b);
    case DoAdminRevoke(a, at) => AdminRevokeConsumed(s, a, at, b);
    case DoSuspend(o, e, at) => SuspendConsumed(s, o, e, at, b);
    case DoPrepare(ctx, n, rid, f, at) => PrepareConsumed(s, ctx, n, rid, f, at, b);
    case DoReconsent(ctx, c, f, p, at) => ReconsentConsumed(s, ctx, c, f, p, at);
    case _ =>
  }

  /** A consumed bootstrap credential stays consumed exactly as long as its device is not reset. */
  lemma {:induction false} ConsumedStep(s: State, op: Op, b: Id)
    requires Valid(s) && Fresh(s, op) && b in s.credentials && s.credentials[b].lifecycle == Consumed
    ensures var t := Step(s, op);
            b in t.credentials && t.credentials[b].deviceId == s.credentials[b].deviceId &&
            (t.credentials[b].lifecycle == Consumed <==> !ResetsDevice(s, op, s.credentials[b].deviceId))
  {
    StepKeeps(s, op);
    assert Forward(s.credentials[b], Step(s, op).credentials[b]);
    match op
    case DoRedeem(r, at) => RedeemConsumed(s, r, at, b);
    case DoSelfRevoke(ctx, rid, f, at) => SelfRevokeConsumed(s, ctx, rid, f, at, b);
    case _ => OtherStepConsumed(s, op, b);
  }

  /** The revoked state is final. */
  lemma {:induction false} RevokedRun(s: State, ops: seq<Op>, h: Id)
    requires Valid(s) && LegalRun(s, ops) && h in s.credentials && s.credentials[h].lifecycle == Revoked
    ensures var u := Run(s, ops); h in u.credentials && u.credentials[h].lifecycle == Revoked
  {
    RunKeeps(s, ops);
    assert Forward(s.credentials[h], Run(s, ops).credentials[h]);
  }

  lemma {:induction false} ConsumedRun(s: State, ops: seq<Op>, b: Id)
    requires Valid(s) && LegalRun(s, ops) && b in s.credentials && s.credentials[b].lifecycle == Consumed
    ensures var u := Run(s, ops);
            b in u.credentials &&
            (u.credentials[b].lifecycle == Consumed <==> NeverResets(s, ops, s.credentials[b].deviceId))
    decreases |ops|
  {
    if ops == [] {
    } else {
      var t := Step(s, ops[0]);
      StepKeeps(s, ops[0]);
      ConsumedStep(s, ops[0], b);
      if ResetsDevice(s, ops[0], s.credentials[b].deviceId) {
        assert Forward(s.credentials[b], t.credentials[b]);
        RevokedRun(t, ops[1..], b);
      } else {
        ConsumedRun(t, ops[1..], b);
      }
    }
  }

  // ---------------------------------------------------------------- the two theorems

  /** A credential of a valid state has a context that carries its identity. */
  lemma {:induction false} ContextKnown(s: State, h: Id)
    requires Valid(s) && h in s.credentials
    ensures var ctx := ContextFor(s, s.credentials[h]);
            ctx.Some? && ctx.value.deviceId == s.credentials[h].deviceId &&
              ctx.value.credentialId == s.credentials[h].id
  {
    assert OwnedBy(s.credentials[h], s.devices);
    assert DeviceHoused(s.employees, s.devices, s.modes, s.credentials[h].deviceId);
  }

  /** The answer of the operation, called with the given identity for a request already in the ledger. */
  function Retried(s: State, ctx: Context, op: Operation, rid: Id, f: Id, n: NewCredential, c: ConsentInput,
                   prid: Id, policy: Option<Policy>, at: Time): (State, Outcome)
  {
    match op
    case OpActivate => Activate(s, ctx, c.(requestId := rid), n, f, policy, at)
    case OpReconsent => Reconsent(s, ctx, c.(requestId := rid), f, policy, at)
    case OpPrepare => Prepare(s, ctx, n, rid, f, at)
    case OpConfirm => Confirm(s, ctx, rid, prid, f, at)
    case OpRevoke => SelfRevoke(s, ctx, rid, f, at)
  }

  /**
   * A request that is in the ledger is answered as recorded exactly if it comes from the recorded credential with
   * the same payload and, where one is proposed, the same new credential; anything else is a conflict.
   */
  lemma RecordedAnswers(s: State, ctx: Context, op: Operation, rid: Id, f: Id, n: NewCredential, c: ConsentInput,
                        prid: Id, policy: Option<Policy>, at: Time)
    requires (ctx.deviceId, op, rid) in s.ledger
    ensures var prior := s.ledger[(ctx.deviceId, op, rid)];
            var same := prior.credentialId == ctx.credentialId && prior.fingerprint == f &&
                        (op == OpActivate || op == OpPrepare ==> prior.proposedHash == Some(n.tokenHash));
            Retried(s, ctx, op, rid, f, n, c, prid, policy, at) ==
              (s, if same then Reply(prior.response, true) else Conflict)
  {
    hide FindCurrent, Rotation;
  }

  /**
   * A retry that is resolved from the ledger is never a conflict and never carried out again: the operation called
   * with the resolved identity gives the recorded answer and changes nothing, as long as it proposes the same
   * credential; and if it proposes another one it is a conflict.
   */
  lemma ResolvedIsAnswered(s: State, h: Id, t: CredentialType, op: Operation, rid: Id, f: Id, n: NewCredential,
                           c: ConsentInput, prid: Id, policy: Option<Policy>, at: Time)
    requires ResolveReplay(s, h, t, op, rid, f).Some?
    ensures var ctx := ResolveReplay(s, h, t, op, rid, f).value;
            var key := (ctx.deviceId, op, rid);
            key in s.ledger &&
            var same := op in {OpActivate, OpPrepare} ==> s.ledger[key].proposedHash == Some(n.tokenHash);
            Retried(s, ctx, op, rid, f, n, c, prid, policy, at) ==
              (s, if same then Reply(s.ledger[key].response, true) else Conflict)
  {
    hide FindCurrent, Rotation;
  }

  /**
   * A completed self-revocation is replayed in every later state: the retry is authenticated, gets the
   * stored answer, and changes nothing.
   */
  lemma {:induction false} SelfRevokeReplays(s: State, ctx: Context, rid: Id, f: Id, at: Time, ops: seq<Op>,
                                             later: Time)
    requires Valid(s) && (ctx.deviceId, OpRevoke, rid) !in s.ledger && FindCurrent(s, ctx, Session, at).Some?
    requires LegalRun(SelfRevoke(s, ctx, rid, f, at).0, ops)
    ensures var h := FindCurrent(s, ctx, Session, at).value;
            var (t, answer) := SelfRevoke(s, ctx, rid, f, at);
            var u := Run(t, ops);
            var retry := Authenticate(u, h, Session, OpRevoke, rid, f, later);
            answer.Reply? && retry.Some? &&
            SelfRevoke(u, retry.value, rid, f, later) == (u, Reply(answer.response, true))
  {
    hide Valid, LegalRun, Run, TrustChecks;
    var h := FindCurrent(s, ctx, Session, at).value;
    var t := SelfRevoke(s, ctx, rid, f, at).0;
    var u := Run(t, ops);
    StepKeeps(s, DoSelfRevoke(ctx, rid, f, at));
    RunKeeps(t, ops);
    RevokedRun(t, ops, h);
    assert Forward(t.credentials[h], u.credentials[h]);
    ContextKnown(u, h);
    var key := (ctx.deviceId, OpRevoke, rid);
    assert key in u.ledger && u.ledger[key] == t.ledger[key];
  }

  /**
   * A completed activation is replayed exactly until its device is paired again or its session revokes
   * itself: as long as neither happens the retry gets the stored answer and changes nothing, and
   * afterwards the bootstrap credential is no longer accepted.
   */
  lemma {:induction false} ActivationReplays(s: State, ctx: Context, c: ConsentInput, n: NewCredential, f: Id,
          p: Option<Policy>, at: Time, ops: seq<Op>, retryCredential: NewCredential, retryPolicy: Option<Policy>,
          later: Time)
    requires Valid(s) && n.id !in s.hashById && (ctx.deviceId, OpActivate, c.requestId) !in s.ledger
    requires Activate(s, ctx, c, n, f, p, at).1.Reply?
    requires LegalRun(Activate(s, ctx, c, n, f, p, at).0, ops)
    requires retryCredential.tokenHash == n.tokenHash
    ensures var b := FindCurrent(s, ctx, Bootstrap, at);
            b.Some? &&
            var (t, answer) := Activate(s, ctx, c, n, f, p, at);
            var u := Run(t, ops);
            var retry := Authenticate(u, b.value, Bootstrap, OpActivate, c.requestId, f, later);
            (retry.Some? <==> NeverResets(t, ops, ctx.deviceId)) &&
            (retry.Some? ==>
              Activate(u, retry.value, c, retryCredential, f, retryPolicy, later) == (u, Reply(answer.response, true)))
  {
    hide Valid, LegalRun, Run, NeverResets, TrustChecks, ConsentAcceptable;
    var b := FindCurrent(s, ctx, Bootstrap, at).value;
    var t := Activate(s, ctx, c, n, f, p, at).0;
    var u := Run(t, ops);
    StepKeeps(s, DoActivate(ctx, c, n, f, p, at));
    RunKeeps(t, ops);
    ConsumedRun(t, ops, b);
    assert Forward(t.credentials[b], u.credentials[b]);
    ContextKnown(u, b);
    ResolveExactly(u, b, Bootstrap, later);
    var key := (ctx.deviceId, OpActivate, c.requestId);
    assert key in u.ledger && u.ledger[key] == t.ledger[key];
  }

  // ---------------------------------------------------------------- the other operations

  // A completed operation on a session is answered again, without changing anything, exactly until the session is
  // rotated away, or its device is paired again or revoked by itself or an administrator. Suspension does not stop it.

  lemma {:induction false} ReconsentReplays(s: State, ctx: Context, c: ConsentInput, f: Id, p: Option<Policy>,
          at: Time, ops: seq<Op>, retryPolicy: Option<Policy>, later: Time)
    requires Valid(s) && (ctx.deviceId, OpReconsent, c.requestId) !in s.ledger
    requires Reconsent(s, ctx, c, f, p, at).1.Reply? && LegalRun(Reconsent(s, ctx, c, f, p, at).0, ops)
    ensures var h := FindCurrent(s, ctx, Session, at);
            h.Some? &&
            var (t, answer) := Reconsent(s, ctx, c, f, p, at);
            var u := Run(t, ops);
            var retry := ResolveReplay(u, h.value, Session, OpReconsent, c.requestId, f);
            (retry.Some? <==> StaysActive(t, ops, h.value)) &&
            (retry.Some? ==>
              Reconsent(u, retry.value, c, f, retryPolicy, later) == (u, Reply(answer.response, true)))
  {
    hide Valid, LegalRun, Run, TrustChecks, ConsentAcceptable, StaysActive;
    var h := FindCurrent(s, ctx, Session, at).value;
    var t := Reconsent(s, ctx, c, f, p, at).0;
    var u := Run(t, ops);
    StepKeeps(s, DoReconsent(ctx, c, f, p, at));
    RunKeeps(t, ops);
    assert Forward(t.credentials[h], u.credentials[h]);
    ActiveRun(t, ops, h);
    ContextKnown(u, h);
    var key := (ctx.deviceId, OpReconsent, c.requestId);
    assert key in u.ledger && u.ledger[key] == t.ledger[key];
  }

  lemma {:induction false} PrepareReplays(s: State, ctx: Context, n: NewCredential, rid: Id, f: Id, at: Time,
                                          ops: seq<Op>, retryCredential: NewCredential, later: Time)
    requires Valid(s) && n.id !in s.hashById && (ctx.deviceId, OpPrepare, rid) !in s.ledger
    requires Prepare(s, ctx, n, rid, f, at).1.Reply? && LegalRun(Prepare(s, ctx, n, rid, f, at).0, ops)
    requires retryCredential.tokenHash == n.tokenHash
    ensures var h := FindCurrent(s, ctx, Session, at);
            h.Some? &&
            var (t, answer) := Prepare(s, ctx, n, rid, f, at);
            var u := Run(t, ops);
            var retry := ResolveReplay(u, h.value, Session, OpPrepare, rid, f);
            (retry.Some? <==> StaysActive(t, ops, h.value)) &&
            (retry.Some? ==>
              Prepare(u, retry.value, retryCredential, rid, f, later) == (u, Reply(answer.response, true)))
  {
    hide Valid, LegalRun, Run, TrustChecks, StaysActive;
    var h := FindCurrent(s, ctx, Session, at).value;
    var t := Prepare(s, ctx, n, rid, f, at).0;
    var u := Run(t, ops);
    StepKeeps(s, DoPrepare(ctx, n, rid, f, at));
    RunKeeps(t, ops);
    assert Forward(t.credentials[h], u.credentials[h]);
    ActiveRun(t, ops, h);
    ContextKnown(u, h);
    var key := (ctx.deviceId, OpPrepare, rid);
    assert key in u.ledger && u.ledger[key] == t.ledger[key];
  }

  lemma {:induction false} ConfirmReplays(s: State, ctx: Context, rid: Id, prid: Id, f: Id, at: Time, ops: seq<Op>,
                                          later: Time)
    requires Valid(s) && (ctx.deviceId, OpConfirm, rid) !in s.ledger && Rotation(s, ctx, prid, at).Some?
    requires LegalRun(Confirm(s, ctx, rid, prid, f, at).0, ops)
    ensures var h := Rotation(s, ctx, prid, at).value.0;
            var (t, answer) := Confirm(s, ctx, rid, prid, f, at);
            var u := Run(t, ops);
            var retry := ResolveReplay(u, h, Session, OpConfirm, rid, f);
            answer.Reply? && (retry.Some? <==> StaysActive(t, ops, h)) &&
            (retry.Some? ==> Confirm(u, retry.value, rid, prid, f, later) == (u, Reply(answer.response, true)))
  {
    RotationRotates(s, ctx, prid, at);
    RotatesOnDevice(s, Rotation(s, ctx, prid, at).value.0, Rotation(s, ctx, prid, at).value.1);
    hide LegalRun, Run, Valid, Rotation, Rooted, StaysActive;
    var h := Rotation(s, ctx, prid, at).value.0;
    var t := Confirm(s, ctx, rid, prid, f, at).0;
    var u := Run(t, ops);
    StepKeeps(s, DoConfirm(ctx, rid, prid, f, at));
    RunKeeps(t, ops);
    assert Forward(t.credentials[h], u.credentials[h]);
    ActiveRun(t, ops, h);
    ContextKnown(u, h);
    var key := (ctx.deviceId, OpConfirm, rid);
    assert key in u.ledger && u.ledger[key] == t.ledger[key];
  }
}
