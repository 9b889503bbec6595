/**
 * Theorems about whole runs of the mobile trust protocol: what authentication amounts to,
 * how many usable credentials a device has, and what is replayed.
 */
module TrustRuns {
  import opened Common
  import opened TrustModel
  import opened TrustInvariant
  import opened TrustSteps

  // ---------------------------------------------------------------- the invariant over steps and runs

  /** The credential that a context names, when every check passes. */
  lemma CurrentHolds(s: State, ctx: Context, t: CredentialType, at: Time)
    requires Valid(s) && FindCurrent(s, ctx, t, at).Some?
    ensures Holds(s, ctx, t, FindCurrent(s, ctx, t, at).value)
  {
  }

  lemma RotationRotates(s: State, ctx: Context, prid: Id, at: Time)
    requires Valid(s) && Rotation(s, ctx, prid, at).Some?
    ensures var r := Rotation(s, ctx, prid, at).value;
            Rotates(s, r.0, r.1) && s.credentials[r.0].deviceId == ctx.deviceId &&
              s.credentials[r.0].id == ctx.credentialId
  {
    var r := Rotation(s, ctx, prid, at).value;
    var key := (ctx.deviceId, OpPrepare, prid);
    assert IdIndexed(s.credentials, s.hashById, ctx.credentialId);
    assert IdIndexed(s.credentials, s.hashById, s.credentials[r.0].rotatedFrom.value);
    assert FitsIn(s.credentials, s.hashById, r.1);
    assert EntryBacked(key, s.ledger[key], s.credentials, s.hashById);
  }

  lemma SameAdvances(s: State)
    ensures Advances(s, s)
  {
  }

  lemma RefusedOrPaired(s: State, r: RedeemInput, at: Time)
    requires RedeemRefusal(s, r, at).None?
    ensures PairFacts(s, r)
  {
    var e := s.employees[CodeOf(s, r.codeHash).employeeId];
    assert e.status != Paused && e.status != Deactivated;
  }

  lemma RedeemStep(s: State, r: RedeemInput, at: Time)
    requires Valid(s) && Fresh(s, DoRedeem(r, at))
    ensures var t := Redeem(s, r, at).0; Valid(t) && Advances(s, t)
  {
    if NewPairing(s, r, at) {
      RefusedOrPaired(s, r, at);
      PairKeeps(s, r, at);
    } else {
      SameAdvances(s);
    }
  }

  lemma ActivateStep(s: State, ctx: Context, c: ConsentInput, n: NewCredential, f: Id, p: Option<Policy>, at: Time)
    requires Valid(s) && n.id !in s.hashById
    ensures var t := Activate(s, ctx, c, n, f, p, at).0; Valid(t) && Advances(s, t)
  {
    if Activate(s, ctx, c, n, f, p, at).1.Reply? && (ctx.deviceId, OpActivate, c.requestId) !in s.ledger {
      CurrentHolds(s, ctx, Bootstrap, at);
      ActivateKeeps(s, ctx, FindCurrent(s, ctx, Bootstrap, at).value, c, n, f, at);
    } else {
      SameAdvances(s);
    }
  }

  lemma ReconsentStep(s: State, ctx: Context, c: ConsentInput, f: Id, p: Option<Policy>, at: Time)
    requires Valid(s)
    ensures var t := Reconsent(s, ctx, c, f, p, at).0; Valid(t) && Advances(s, t)
  {
    if Reconsent(s, ctx, c, f, p, at).1.Reply? && (ctx.deviceId, OpReconsent, c.requestId) !in s.ledger {
      CurrentHolds(s, ctx, Session, at);
      ReconsentKeeps(s, ctx, FindCurrent(s, ctx, Session, at).value, c, f, at);
    } else {
      SameAdvances(s);
    }
  }

  lemma PrepareStep(s: State, ctx: Context, n: NewCredential, rid: Id, f: Id, at: Time)
    requires Valid(s) && n.id !in s.hashById
    ensures var t := Prepare(s, ctx, n, rid, f, at).0; Valid(t) && Advances(s, t)
  {
    if Prepare(s, ctx, n, rid, f, at).1.Reply? && (ctx.deviceId, OpPrepare, rid) !in s.ledger {
      CurrentHolds(s, ctx, Session, at);
      PrepareKeeps(s, ctx, FindCurrent(s, ctx, Session, at).value, n, rid, f, at);
    } else {
      SameAdvances(s);
    }
  }

  lemma ConfirmStep(s: State, ctx: Context, rid: Id, prid: Id, f: Id, at: Time)
    requires Valid(s)
    ensures var t := Confirm(s, ctx, rid, prid, f, at).0; Valid(t) && Advances(s, t)
  {
    if (ctx.deviceId, OpConfirm, rid) !in s.ledger && Rotation(s, ctx, prid, at).Some? {
      RotationRotates(s, ctx, prid, at);
      var r := Rotation(s, ctx, prid, at).value;
      ConfirmKeeps(s, ctx.deviceId, r.0, r.1, rid, f, at);
    } else {
      SameAdvances(s);
    }
  }

  lemma SelfRevokeStep(s: State, ctx: Context, rid: Id, f: Id, at: Time)
    requires Valid(s)
    ensures var t := SelfRevoke(s, ctx, rid, f, at).0; Valid(t) && Advances(s, t)
  {
    if (ctx.deviceId, OpRevoke, rid) !in s.ledger && FindCurrent(s, ctx, Session, at).Some? {
      CurrentHolds(s, ctx, Session, at);
      SelfRevokeKeeps(s, ctx, FindCurrent(s, ctx, Session, at).value, rid, f, at);
    } else {
      SameAdvances(s);
    }
  }

  lemma AdminRevokeStep(s: State, a: AdminInput, at: Time)
    requires Valid(s)
    ensures var t := AdminRevoke(s, a, at).0; Valid(t) && Advances(s, t)
  {
    if AdminRevoke(s, a, at).1.AdminReply? && (a.organizationId, a.requestId) !in s.adminRevocations {
      AdminRevokeKeeps(s, a, at);
    } else {
      SameAdvances(s);
    }
  }

  lemma SuspendStep(s: State, o: Id, e: Id, at: Time)
    requires Valid(s)
    ensures var t := Suspend(s, o, e, at).0; Valid(t) && Advances(s, t)
  {
    if Suspend(s, o, e, at).1 {
      SuspendKeeps(s, o, e, at);
    } else {
      SameAdvances(s);
    }
  }

  /** Every operation keeps the invariant, moves credentials only forward and keeps the ledger. */
  lemma {:induction false} StepKeeps(s: State, op: Op)
    requires Valid(s) && Fresh(s, op)
    ensures Valid(Step(s, op)) && Advances(s, Step(s, op))
  {
    match op
    case DoRedeem(r, at) => RedeemStep(s, r, at);
    case DoActivate(ctx, c, n, f, p, at) => ActivateStep(s, ctx, c, n, f, p, at);
    case DoReconsent(ctx, c, f, p, at) => ReconsentStep(s, ctx, c, f, p, at);
    case DoPrepare(ctx, n, rid, f, at) => PrepareStep(s, ctx, n, rid, f, at);
    case DoConfirm(ctx, rid, prid, f, at) => ConfirmStep(s, ctx, rid, prid, f, at);
    case DoSelfRevoke(ctx, rid, f, at) => SelfRevokeStep(s, ctx, rid, f, at);
    case DoAdminRevoke(a, at) => AdminRevokeStep(s, a, at);
    case DoSuspend(o, e, at) => SuspendStep(s, o, e, at);
    case DoCreateEmployee(id, o) => CreateEmployeeKeeps(s, id, o);
    case DoCreateCode(_, _, _) => SameAdvances(s);
    case DoRevokeCode(_, _, _) => SameAdvances(s);
    case DoPublishPolicy(_, _) => SameAdvances(s);
  }

  lemma CreateEmployeeKeeps(s: State, id: Id, o: Id)
    requires Valid(s) && id !in s.employees
    ensures var t := CreateEmployee(s, id, o); Valid(t) && Advances(s, t)
  {
    var t := CreateEmployee(s, id, o);
    forall d ensures DeviceHoused(t.employees, t.devices, t.modes, d) {
      assert DeviceHoused(s.employees, s.devices, s.modes, d);
    }
    forall e ensures ListsOwn(t.employees, t.devices, e) {
      assert ListsOwn(s.employees, s.devices, e);
    }
    forall h | h in t.credentials
      ensures Usable(t.credentials[h]) ==> Backed(t.credentials[h], t.employees, t.devices, t.consents)
      ensures Frozen(t.credentials[h]) ==> OutOfService(t.credentials[h], t.employees, t.devices)
    {
      var c := s.credentials[h];
      assert Usable(c) ==> Backed(c, s.employees, s.devices, s.consents);
      assert Frozen(c) ==> OutOfService(c, s.employees, s.devices);
    }
    SameAdvances(s);
  }

  lemma AdvancesCompose(s: State, t: State, u: State)
    requires Advances(s, t) && Advances(t, u)
    ensures Advances(s, u)
  {
    forall h | h in s.credentials ensures Forward(s.credentials[h], u.credentials[h]) {
      assert Forward(s.credentials[h], t.credentials[h]) && Forward(t.credentials[h], u.credentials[h]);
    }
  }

  /**
   * Over every run the invariant holds, credentials only move forward (pending, active, consumed,
   * revoked) with their identity and time stamps kept, and ledger entries are never rewritten.
   */
  lemma {:induction false} RunKeeps(s: State, ops: seq<Op>)
    requires Valid(s) && LegalRun(s, ops)
    ensures Valid(Run(s, ops)) && Advances(s, Run(s, ops))
    decreases |ops|
  {
    if ops == [] {
      SameAdvances(s);
    } else {
      StepKeeps(s, ops[0]);
      RunKeeps(Step(s, ops[0]), ops[1..]);
      AdvancesCompose(s, Step(s, ops[0]), Run(s, ops));
    }
  }

  // ---------------------------------------------------------------- authentication

  /**
   * A credential is accepted exactly when it has the requested type, is usable and unexpired, and its
   * organization is in service: all the other checks of the source follow from the invariant.
   */
  lemma ResolveExactly(s: State, h: Id, t: CredentialType, at: Time)
    requires Valid(s)
    ensures ResolveCredential(s, h, t, at).Some? <==>
              h in s.credentials && s.credentials[h].credentialType == t && Usable(s.credentials[h]) &&
              at < s.credentials[h].expiresAt && InService(s, s.credentials[h].organizationId)
  {
    if h in s.credentials && s.credentials[h].credentialType == t {
      var c := s.credentials[h];
      assert OwnedBy(c, s.devices) && HashIndexed(s.credentials, s.hashById, h);
      assert DeviceHoused(s.employees, s.devices, s.modes, c.deviceId);
      assert Usable(c) ==> Backed(c, s.employees, s.devices, s.consents);
      var ctx := ContextFor(s, c).value;
      assert MatchesContext(c, ctx, t);
      assert FindCurrent(s, ctx, t, at).Some? <==>
               Usable(c) && at < c.expiresAt && InService(s, c.organizationId);
    }
  }

  /**
   * A redemption stores the proposed bootstrap hash without looking whether it is taken. Credentials
   * move only forward if and only if no pairing overwrites a stored credential that way.
   */
  lemma RedeemForwardExactly(s: State, r: RedeemInput, at: Time)
    requires Valid(s) && r.bootstrap.id !in s.hashById
    ensures CredentialsForward(s.credentials, Redeem(s, r, at).0.credentials) <==>
              !(NewPairing(s, r, at) && r.bootstrap.tokenHash in s.credentials)
  {
    var t := Redeem(s, r, at).0;
    var n := r.bootstrap;
    if NewPairing(s, r, at) {
      if n.tokenHash in s.credentials {
        assert HashIndexed(s.credentials, s.hashById, n.tokenHash);
        assert !Forward(s.credentials[n.tokenHash], t.credentials[n.tokenHash]);
      } else {
        var code := CodeOf(s, r.codeHash);
        forall h | h in s.credentials ensures Forward(s.credentials[h], t.credentials[h]) {
          assert t.credentials[h] == s.credentials[h] ||
                 t.credentials[h] == RevokeOne(s.credentials[h], RedeemDevice(s, r, code.organizationId), at);
        }
      }
    }
  }

  /** The same condition decides whether the invariant survives: the overwritten credential's id then leads astray. */
  lemma RedeemKeepsExactly(s: State, r: RedeemInput, at: Time)
    requires Valid(s) && (NewPairing(s, r, at) ==> Proposed(s, r))
    ensures Valid(Redeem(s, r, at).0) <==> !(NewPairing(s, r, at) && r.bootstrap.tokenHash in s.credentials)
  {
    if NewPairing(s, r, at) && r.bootstrap.tokenHash in s.credentials {
      var t := Redeem(s, r, at).0;
      var i := s.credentials[r.bootstrap.tokenHash].id;
      assert HashIndexed(s.credentials, s.hashById, r.bootstrap.tokenHash);
      assert !IdIndexed(t.credentials, t.hashById, i);
    } else {
      RedeemStep(s, r, at);
    }
  }

  /**
   * Overwriting can be reached from every state in which some device can be paired: the device redeems, and then
   * redeems a second code of its employee, proposing the same bootstrap credential again.
   */
  lemma SecondCodeOverwrites(s: State, r: RedeemInput, at: Time, codeId: Id, again: RedeemInput)
    requires Valid(s) && NewPairing(s, r, at) && Fresh(s, DoRedeem(r, at))
    requires codeId != s.pairingIdByHash[r.codeHash] && again.codeHash != r.codeHash
    requires again.requestId !in s.redemptions && again.requestId != r.requestId
    requires again.installationId == r.installationId && again.mode == r.mode
    requires again.bootstrap.tokenHash == r.bootstrap.tokenHash
    ensures var ops := [DoRedeem(r, at), DoCreateCode(codeId, again.codeHash, CodeOf(s, r.codeHash))];
            var t := Run(s, ops);
            LegalRun(s, ops) && Valid(t) && NewPairing(t, again, at) && again.bootstrap.tokenHash in t.credentials &&
            (Proposed(t, again) ==> !Valid(Redeem(t, again, at).0))
  {
    var code := CodeOf(s, r.codeHash);
    hide *;
    PairsAgain(s, r, at, codeId, again);
    RedeemStep(s, r, at);
    var u := Redeem(s, r, at).0;
    var t := CreatePairingCode(u, codeId, again.codeHash, code);
    CreateCodeKeeps(u, codeId, again.codeHash, code);
    StepsAre(s, u, r, at, codeId, again.codeHash, code);
    TwoSteps(s, DoRedeem(r, at), DoCreateCode(codeId, again.codeHash, code));
    if Proposed(t, again) {
      RedeemKeepsExactly(t, again, at);
    }
  }

  lemma StepsAre(s: State, u: State, r: RedeemInput, at: Time, id: Id, codeHash: Id, code: PairingCode)
    ensures Step(s, DoRedeem(r, at)) == Redeem(s, r, at).0
    ensures Step(u, DoCreateCode(id, codeHash, code)) == CreatePairingCode(u, id, codeHash, code)
    ensures Fresh(u, DoCreateCode(id, codeHash, code))
  {
    hide Redeem, CreatePairingCode;
  }

  /** An organization in service with one invited employee and one pairing code, valid until `expiresAt`. */
  function Enrolled(o: Id, e: Id, codeHash: Id, mode: Mode, expiresAt: Time): State {
    State(map[o := OrgActive], map[], map[e := Employee(o, Invited, [])], map[], map[], map[], map[],
          map[1 := PairingCode(o, e, mode, expiresAt, None, None)], map[codeHash := 1],
          map[], map[], map[], map[], map[], map[], map[], map[])
  }

  /** There the first device can be paired, so the state that `SecondCodeOverwrites` starts from exists. */
  lemma FirstDevicePairs(o: Id, e: Id, r: RedeemInput, expiresAt: Time, at: Time)
    requires at < expiresAt && r.bootstrap.credentialType == Bootstrap && r.bootstrap.lifecycle == Active
    ensures var s := Enrolled(o, e, r.codeHash, r.mode, expiresAt);
            Valid(s) && NewPairing(s, r, at) && Fresh(s, DoRedeem(r, at))
  {
    var s := Enrolled(o, e, r.codeHash, r.mode, expiresAt);
    assert CodeOf(s, r.codeHash) == PairingCode(o, e, r.mode, expiresAt, None, None);
  }

  lemma PairsAgain(s: State, r: RedeemInput, at: Time, codeId: Id, again: RedeemInput)
    requires NewPairing(s, r, at) && codeId != s.pairingIdByHash[r.codeHash] && again.codeHash != r.codeHash
    requires again.requestId !in s.redemptions && again.requestId != r.requestId
    requires again.installationId == r.installationId && again.mode == r.mode
    ensures var u := Redeem(s, r, at).0;
            var t := CreatePairingCode(u, codeId, again.codeHash, CodeOf(s, r.codeHash));
            NewPairing(t, again, at) && r.bootstrap.tokenHash in t.credentials
  {
    var code := CodeOf(s, r.codeHash);
    var u := Redeem(s, r, at).0;
    var t := CreatePairingCode(u, codeId, again.codeHash, code);
    assert CodeKnown(t, again.codeHash) && CodeOf(t, again.codeHash) == code;
    assert ExistingDevice(t, code.organizationId, again.installationId) ==
        Some(RedeemDevice(s, r, code.organizationId));
  }

  lemma CreateCodeKeeps(s: State, id: Id, codeHash: Id, code: PairingCode)
    requires Valid(s)
    ensures Valid(CreatePairingCode(s, id, codeHash, code))
  {
  }

  lemma TwoSteps(s: State, first: Op, second: Op)
    ensures Run(s, [first, second]) == Step(Step(s, first), second)
    ensures LegalRun(s, [first, second]) <==> Fresh(s, first) && Fresh(Step(s, first), second)
  {
    hide Step, Fresh;
    var u := Step(s, first);
    var t := Step(u, second);
    assert [first, second][1..] == [second] && [second][1..] == [];
    assert Run(u, [second]) == Run(t, []) == t;
    assert LegalRun(t, []) && (LegalRun(u, [second]) <==> Fresh(u, second));
  }

  /**
   * A pending credential that is resolved for its prepare request can be confirmed exactly as long as the
   * session it was prepared from is still usable; nothing else can stand in the way.
   */
  lemma PendingConfirmsExactly(s: State, h: Id, prid: Id, at: Time)
    requires Valid(s) && ResolvePending(s, h, prid, at).Some?
    ensures var ctx := ResolvePending(s, h, prid, at).value;
            var c := s.credentials[h];
            c.rotatedFrom.Some? && c.rotatedFrom.value in s.hashById &&
              s.hashById[c.rotatedFrom.value] in s.credentials &&
            (Rotation(s, ctx, prid, at).Some? <==> Usable(s.credentials[s.hashById[c.rotatedFrom.value]])) &&
            (Rotation(s, ctx, prid, at).Some? ==>
             Rotation(s, ctx, prid, at) == Some((h, s.hashById[c.rotatedFrom.value])))
  {
    assert HashIndexed(s.credentials, s.hashById, h);
    assert FitsIn(s.credentials, s.hashById, h);
    var c := s.credentials[h];
    if c.rotatedFrom.Some? && c.rotatedFrom.value in s.hashById && s.hashById[c.rotatedFrom.value] in s.credentials {
      assert FitsIn(s.credentials, s.hashById, s.hashById[c.rotatedFrom.value]);
    }
  }
}
