/**
 * Ingesting batches of calls from a device. The store is updated item by item; what it holds is the
 * last item sent under each local identifier.
 */
module CallIngestion {
  import opened Common

  /** The fields of a call that every item brings along and every update overwrites. */
  datatype Body = Body(
    direction: Id, disposition: Id, phoneNumber: Id, contactName: Option<Id>, startedAt: Time,
    answeredAt: Option<Time>, endedAt: Option<Time>, durationSeconds: nat, ringDurationSeconds: Option<nat>)

  datatype Item = Item(localId: Id, simCardId: Option<Id>, isInternal: Option<bool>, body: Body)

  datatype Call = Call(
    organizationId: Id, employeeId: Id, deviceId: Id, localId: Id, simCardId: Option<Id>,
    isInternal: bool, body: Body, createdAt: Time, updatedAt: Time)

  datatype Context = Context(organizationId: Id, employeeId: Id, deviceId: Id)

  datatype Verdict = Created | Updated | Duplicate

  datatype ItemResult = ItemResult(localId: Id, verdict: Verdict, callId: nat)

  type Key = (Id, Id, Id)

  /** A call is identified by its place in insertion order; calls are never removed. */
  datatype Store = Store(calls: seq<Call>, callIds: map<Key, nat>, fingerprints: map<Key, Id>)

  datatype Receipt = Receipt(payloadHash: Id, acceptedAt: Time, items: seq<ItemResult>)

  datatype Outcome = Accepted(receipt: Receipt) | NotAccepted | ConsentRequired | Conflict

  /** Two items are the same to the store exactly if their fingerprints are equal. */
  ghost predicate CollisionFree(fp: Item -> Id) {
    forall a, b {:trigger fp(a), fp(b)} :: fp(a) == fp(b) ==> a == b
  }

  function KeyOf(ctx: Context, localId: Id): Key {
    (ctx.organizationId, ctx.deviceId, localId)
  }

  ghost predicate Sound(s: Store) {
    && s.callIds.Keys == s.fingerprints.Keys
    && (forall k {:trigger s.callIds[k]} :: k in s.callIds ==> s.callIds[k] < |s.calls|)
    && (forall j, k {:trigger s.callIds[j], s.callIds[k]} ::
          j in s.callIds && k in s.callIds && s.callIds[j] == s.callIds[k] ==> j == k)
  }

  function Internal(item: Item): bool {
    item.isInternal.Some? && item.isInternal.value
  }

  /** An update overwrites the body; the SIM card and the time of creation stay those of the first item. */
  function Overwrite(call: Call, item: Item, at: Time): Call {
    call.(isInternal := Internal(item), body := item.body, updatedAt := at)
  }

  function NewCall(ctx: Context, item: Item, at: Time): Call {
    Call(ctx.organizationId, ctx.employeeId, ctx.deviceId, item.localId, item.simCardId, Internal(item), item.body, at,
         at)
  }

  function IngestItem(s: Store, fp: Item -> Id, ctx: Context, item: Item, at: Time): (r: (Store, ItemResult))
    requires Sound(s)
    ensures Sound(r.0)
  {
    var key := KeyOf(ctx, item.localId);
    if key in s.callIds then
      var id := s.callIds[key];
      if s.fingerprints[key] == fp(item) then (s, ItemResult(item.localId, Duplicate, id))
      else
        (s.(calls := s.calls[id := Overwrite(s.calls[id], item, at)], fingerprints := s.fingerprints[key := fp(item)]),
         ItemResult(item.localId, Updated, id))
    else
      (Store(s.calls + [NewCall(ctx, item, at)], s.callIds[key := |s.calls|], s.fingerprints[key := fp(item)]),
       ItemResult(item.localId, Created, |s.calls|))
  }

  /** The store and the results after the first `n` items of a batch. */
  function IngestTo(s: Store, fp: Item -> Id, ctx: Context, items: seq<Item>, at: Time,
                    n: nat): (r: (Store, seq<ItemResult>))
    requires Sound(s) && n <= |items|
    ensures Sound(r.0) && |r.1| == n
  {
    if n == 0 then (s, [])
    else
      var before := IngestTo(s, fp, ctx, items, at, n - 1);
      var last := IngestItem(before.0, fp, ctx, items[n - 1], at);
      (last.0, before.1 + [last.1])
  }

  function Ingest(s: Store, fp: Item -> Id, ctx: Context, items: seq<Item>, at: Time): (r: (Store, seq<ItemResult>))
    requires Sound(s)
    ensures Sound(r.0)
  {
    IngestTo(s, fp, ctx, items, at, |items|)
  }

  // ---------------------------------------------------------------- the simple definition

  /** One item as it was sent at some time by the device of an employee. */
  datatype Sent = Sent(item: Item, at: Time, employeeId: Id)

  function FirstOf(log: seq<Sent>, localId: Id): (first: Option<Sent>)
    ensures first.None? <==> forall i :: 0 <= i < |log| ==> log[i].item.localId != localId
  {
    if log == [] then None
    else
      var earlier := FirstOf(log[..|log| - 1], localId);
      if earlier.Some? then earlier
      else if log[|log| - 1].item.localId == localId then Some(log[|log| - 1]) else None
  }

  function LastOf(log: seq<Sent>, localId: Id): (last: Option<Sent>)
    ensures last.None? <==> forall i :: 0 <= i < |log| ==> log[i].item.localId != localId
  {
    if log == [] then None
    else if log[|log| - 1].item.localId == localId then Some(log[|log| - 1])
    else LastOf(log[..|log| - 1], localId)
  }

  /** When the item that is now the last one was first sent in a row. */
  function ChangedAt(log: seq<Sent>, localId: Id): Time {
    if log == [] then 0
    else
      var (rest, sent) := (log[..|log| - 1], log[|log| - 1]);
      if sent.item.localId != localId then ChangedAt(rest, localId)
      else if LastOf(rest, localId).Some? && LastOf(rest, localId).value.item == sent.item then ChangedAt(rest, localId)
      else sent.at
  }

  /**
   * What the store holds under one local identifier is decided by the log alone: employee, SIM card and time of
   * creation by the first item sent, the rest by the last.
   */
  ghost predicate HoldsLast(s: Store, fp: Item -> Id, ctx: Context, log: seq<Sent>, localId: Id)
    requires Sound(s)
  {
    var key, first, last := (ctx.organizationId, ctx.deviceId, localId), FirstOf(log, localId), LastOf(log, localId);
    && (key in s.callIds <==> last.Some?)
    && (key in s.callIds && first.Some? && last.Some? ==>
          s.fingerprints[key] == fp(last.value.item) &&
          s.calls[s.callIds[key]] == Call(
            ctx.organizationId, first.value.employeeId, ctx.deviceId, localId,
            first.value.item.simCardId, last.value.item.isInternal == Some(true), last.value.item.body,
            first.value.at, ChangedAt(log, localId)))
  }

  /** The store holds one call for each local identifier of the log, with the content of the last item. */
  ghost predicate Reflects(s: Store, fp: Item -> Id, ctx: Context, log: seq<Sent>)
    requires Sound(s)
  {
    forall l: Id {:trigger HoldsLast(s, fp, ctx, log, l)} :: HoldsLast(s, fp, ctx, log, l)
  }

  function SentAt(items: seq<Item>, at: Time, employeeId: Id, n: nat): (log: seq<Sent>)
    requires n <= |items|
    ensures |log| == n
  {
    if n == 0 then [] else SentAt(items, at, employeeId, n - 1) + [Sent(items[n - 1], at, employeeId)]
  }

  lemma OneMoreSent(s: Store, fp: Item -> Id, ctx: Context, log: seq<Sent>, item: Item, at: Time)
    requires Sound(s) && CollisionFree(fp) && Reflects(s, fp, ctx, log)
    ensures Reflects(IngestItem(s, fp, ctx, item, at).0, fp, ctx, log + [Sent(item, at, ctx.employeeId)])
  {
    var t, more := IngestItem(s, fp, ctx, item, at).0, log + [Sent(item, at, ctx.employeeId)];
    assert more[..|log|] == log;
    forall l: Id ensures HoldsLast(t, fp, ctx, more, l) {
      assert HoldsLast(s, fp, ctx, log, l);
      assert HoldsLast(s, fp, ctx, log, item.localId);
    }
  }

  lemma {:induction false} BatchReflected(s: Store, fp: Item -> Id, ctx: Context, log: seq<Sent>, items: seq<Item>,
                                          at: Time, n: nat)
    requires Sound(s) && CollisionFree(fp) && Reflects(s, fp, ctx, log) && n <= |items|
    ensures Reflects(IngestTo(s, fp, ctx, items, at, n).0, fp, ctx,
                     log + SentAt(items, at, ctx.employeeId, n))
  {
    if n == 0 {
      assert log + SentAt(items, at, ctx.employeeId, 0) == log;
    } else {
      BatchReflected(s, fp, ctx, log, items, at, n - 1);
      var sent := log + SentAt(items, at, ctx.employeeId, n - 1);
      OneMoreSent(IngestTo(s, fp, ctx, items, at, n - 1).0, fp, ctx, sent, items[n - 1], at);
      assert log + SentAt(items, at, ctx.employeeId, n) == sent + [Sent(items[n - 1], at, ctx.employeeId)];
    }
  }

  // ---------------------------------------------------------------- whole runs

  /** A batch that was accepted. */
  datatype Delivery = Delivery(ctx: Context, items: seq<Item>, at: Time)

  function AfterRun(s: Store, fp: Item -> Id, run: seq<Delivery>, n: nat): (t: Store)
    requires Sound(s) && n <= |run|
    ensures Sound(t)
  {
    if n == 0 then s else Ingest(AfterRun(s, fp, run, n - 1), fp, run[n - 1].ctx, run[n - 1].items, run[n - 1].at).0
  }

  predicate SameDevice(a: Context, b: Context) {
    a.organizationId == b.organizationId && a.deviceId == b.deviceId
  }

  /** Everything that one device sent, in order. */
  function LogOf(run: seq<Delivery>, ctx: Context, n: nat): seq<Sent>
    requires n <= |run|
  {
    if n == 0 then []
    else
      LogOf(run, ctx, n - 1) +
      var d := run[n - 1];
      if SameDevice(d.ctx, ctx) then SentAt(d.items, d.at, d.ctx.employeeId, |d.items|) else []
  }

  lemma {:induction false} OtherDeviceUntouched(s: Store, fp: Item -> Id, ctx: Context, items: seq<Item>, at: Time,
                                                n: nat, other: Context, log: seq<Sent>)
    requires Sound(s) && n <= |items| && !SameDevice(ctx, other) && Reflects(s, fp, other, log)
    ensures Reflects(IngestTo(s, fp, ctx, items, at, n).0, fp, other, log)
  {
    hide IngestItem, Reflects, Sound;
    if n == 0 {
    } else {
      OtherDeviceUntouched(s, fp, ctx, items, at, n - 1, other, log);
      OtherItemUntouched(IngestTo(s, fp, ctx, items, at, n - 1).0, fp, ctx, items[n - 1], at, other, log);
    }
  }

  lemma OtherItemUntouched(s: Store, fp: Item -> Id, ctx: Context, item: Item, at: Time, other: Context, log: seq<Sent>)
    requires Sound(s) && !SameDevice(ctx, other) && Reflects(s, fp, other, log)
    ensures Reflects(IngestItem(s, fp, ctx, item, at).0, fp, other, log)
  {
    var after := IngestItem(s, fp, ctx, item, at).0;
    forall l: Id ensures HoldsLast(after, fp, other, log, l) {
      assert HoldsLast(s, fp, other, log, l);
      assert KeyOf(other, l) != KeyOf(ctx, item.localId);
    }
  }

  lemma SameDeviceReflects(s: Store, fp: Item -> Id, a: Context, b: Context, log: seq<Sent>)
    requires Sound(s) && SameDevice(a, b) && Reflects(s, fp, a, log)
    ensures Reflects(s, fp, b, log)
  {
    forall l: Id ensures HoldsLast(s, fp, b, log, l) {
      assert HoldsLast(s, fp, a, log, l);
    }
  }

  /**
   * After any run of accepted batches, starting from no calls, a device has one call for each local
   * identifier it sent, holding the last item sent under it.
   */
  lemma {:induction false} RunReflected(fp: Item -> Id, run: seq<Delivery>, ctx: Context, n: nat)
    requires CollisionFree(fp) && n <= |run|
    ensures Sound(Store([], map[], map[]))
    ensures Reflects(AfterRun(Store([], map[], map[]), fp, run, n), fp, ctx, LogOf(run, ctx, n))
  {
    var empty := Store([], map[], map[]);
    if n == 0 {
      assert Sound(empty);
      forall l: Id ensures HoldsLast(empty, fp, ctx, [], l) {
      }
    } else {
      RunReflected(fp, run, ctx, n - 1);
      var before, d := AfterRun(empty, fp, run, n - 1), run[n - 1];
      var log := LogOf(run, ctx, n - 1);
      if SameDevice(d.ctx, ctx) {
        SameDeviceReflects(before, fp, ctx, d.ctx, log);
        BatchReflected(before, fp, d.ctx, log, d.items, d.at, |d.items|);
        SameDeviceReflects(AfterRun(empty, fp, run, n), fp, d.ctx, ctx,
                           log + SentAt(d.items, d.at, d.ctx.employeeId, |d.items|));
      } else {
        OtherDeviceUntouched(before, fp, d.ctx, d.items, d.at, |d.items|, ctx, log);
        assert log + [] == log;
      }
    }
  }

  lemma ItemAddsOne(s: Store, fp: Item -> Id, ctx: Context, item: Item, at: Time)
    requires Sound(s)
    ensures var t := IngestItem(s, fp, ctx, item, at).0;
            |t.calls| - |t.callIds| == |s.calls| - |s.callIds| && |t.calls| >= |s.calls|
  {
  }

  /** Every call that a batch adds is known under exactly one new identifier. */
  lemma {:induction false} OneCallEach(s: Store, fp: Item -> Id, ctx: Context, items: seq<Item>, at: Time, n: nat)
    requires Sound(s) && n <= |items|
    ensures var t := IngestTo(s, fp, ctx, items, at, n).0;
            |t.calls| - |t.callIds| == |s.calls| - |s.callIds| && |t.calls| >= |s.calls|
  {
    hide IngestItem, Sound;
    if n == 0 {
    } else {
      OneCallEach(s, fp, ctx, items, at, n - 1);
      ItemAddsOne(IngestTo(s, fp, ctx, items, at, n - 1).0, fp, ctx, items[n - 1], at);
    }
  }

  /** The result of an item names the call that holds it, and says whether that is new, changed, or neither. */
  lemma ResultTells(s: Store, fp: Item -> Id, ctx: Context, item: Item, at: Time)
    requires Sound(s)
    ensures var (t, result) := IngestItem(s, fp, ctx, item, at);
            var key := (ctx.organizationId, ctx.deviceId, item.localId);
            result.localId == item.localId && key in t.callIds && result.callId == t.callIds[key] &&
            result.callId < |t.calls| &&
            (result.verdict == Created <==> |t.calls| == |s.calls| + 1) &&
            (result.verdict == Created <==> key !in s.callIds) &&
            (result.verdict == Duplicate <==> key in s.fingerprints && s.fingerprints[key] == fp(item)) &&
            (result.verdict == Duplicate ==> t == s) &&
            (result.verdict == Updated ==> |t.calls| == |s.calls| && t.callIds == s.callIds)
  {
  }

  // ---------------------------------------------------------------- splitting and re-sending

  predicate SameCall(a: Call, b: Call) {
    a.(createdAt := b.createdAt, updatedAt := b.updatedAt) == b
  }

  /** Equal but for the times at which the calls were written. */
  ghost predicate SameButTimes(s: Store, t: Store) {
    && s.callIds == t.callIds && s.fingerprints == t.fingerprints && |s.calls| == |t.calls|
    && forall i {:trigger s.calls[i]} {:trigger t.calls[i]} :: 0 <= i < |s.calls| ==> SameCall(s.calls[i], t.calls[i])
  }

  lemma {:induction false} ItemIgnoresTimes(s: Store, t: Store, fp: Item -> Id, ctx: Context, item: Item, at: Time,
          later: Time)
    requires Sound(s) && Sound(t) && SameButTimes(s, t)
    ensures SameButTimes(IngestItem(s, fp, ctx, item, at).0, IngestItem(t, fp, ctx, item, later).0)
    ensures IngestItem(s, fp, ctx, item, at).1 == IngestItem(t, fp, ctx, item, later).1
  {
    var key := KeyOf(ctx, item.localId);
    if key in s.callIds && s.fingerprints[key] != fp(item) {
      var id := s.callIds[key];
      assert SameCall(Overwrite(s.calls[id], item, at), Overwrite(t.calls[id], item, later));
    } else if key !in s.callIds {
      assert SameCall(NewCall(ctx, item, at), NewCall(ctx, item, later));
    }
    hide Sound, Overwrite, NewCall, SameCall;
  }

  /**
   * Splitting a batch in two, delivered at whatever times, yields the same results item by item and the
   * same calls up to the times written; at one time it yields the same store.
   */
  lemma {:induction false} SplitBatch(s: Store, fp: Item -> Id, ctx: Context, a: seq<Item>, b: seq<Item>, n: nat,
                                      at: Time, first: Time, second: Time)
    requires Sound(s) && n <= |b|
    ensures var whole := IngestTo(s, fp, ctx, a + b, at, |a| + n);
            var part := Ingest(s, fp, ctx, a, first);
            var rest := IngestTo(part.0, fp, ctx, b, second, n);
            SameButTimes(whole.0, rest.0) && whole.1 == part.1 + rest.1 &&
            (at == first == second ==> whole.0 == rest.0)
  {
    hide IngestItem, SameButTimes, Sound;
    if n == 0 {
      FirstPart(s, fp, ctx, a, b, |a|, at, first);
    } else {
      SplitBatch(s, fp, ctx, a, b, n - 1, at, first, second);
      var before := IngestTo(s, fp, ctx, a + b, at, |a| + n - 1).0;
      var part := Ingest(s, fp, ctx, a, first).0;
      assert (a + b)[|a| + n - 1] == b[n - 1];
      ItemIgnoresTimes(before, IngestTo(part, fp, ctx, b, second, n - 1).0, fp, ctx, b[n - 1], at, second);
    }
  }

  lemma NoTimes(s: Store)
    ensures SameButTimes(s, s)
  {
  }

  lemma {:induction false} FirstPart(s: Store, fp: Item -> Id, ctx: Context, a: seq<Item>, b: seq<Item>, n: nat,
                                     at: Time, first: Time)
    requires Sound(s) && n <= |a|
    ensures var (whole, part) := (IngestTo(s, fp, ctx, a + b, at, n), IngestTo(s, fp, ctx, a, first, n));
            SameButTimes(whole.0, part.0) && whole.1 == part.1 && (at == first ==> whole.0 == part.0)
  {
    hide IngestItem, SameButTimes, Sound;
    if n == 0 {
      NoTimes(s);
    } else {
      FirstPart(s, fp, ctx, a, b, n - 1, at, first);
      assert (a + b)[n - 1] == a[n - 1];
      ItemIgnoresTimes(IngestTo(s, fp, ctx, a + b, at, n - 1).0, IngestTo(s, fp, ctx, a, first, n - 1).0, fp, ctx,
                       a[n - 1], at, first);
    }
  }

  /** The item is the one that the store holds under its identifier. */
  ghost predicate IsCurrent(s: Store, fp: Item -> Id, ctx: Context, item: Item) {
    KeyOf(ctx, item.localId) in s.fingerprints && s.fingerprints[KeyOf(ctx, item.localId)] == fp(item)
  }

  lemma CurrentIsDuplicate(s: Store, fp: Item -> Id, ctx: Context, item: Item, at: Time)
    requires Sound(s)
    ensures IngestItem(s, fp, ctx, item, at).1.verdict == Duplicate <==> IsCurrent(s, fp, ctx, item)
    ensures IsCurrent(s, fp, ctx, item) ==> IngestItem(s, fp, ctx, item, at).0 == s
  {
  }

  ghost predicate AllCurrent(s: Store, fp: Item -> Id, ctx: Context, items: seq<Item>, n: nat)
    requires n <= |items|
  {
    forall i :: 0 <= i < n ==> IsCurrent(s, fp, ctx, items[i])
  }

  ghost predicate AllDuplicate(results: seq<ItemResult>) {
    forall i :: 0 <= i < |results| ==> results[i].verdict == Duplicate
  }

  /** Re-sending only current items yields only duplicates and changes no call, and conversely. */
  lemma {:induction false} ResendDuplicates(s: Store, fp: Item -> Id, ctx: Context, items: seq<Item>, at: Time, n: nat)
    requires Sound(s) && n <= |items|
    ensures AllDuplicate(IngestTo(s, fp, ctx, items, at, n).1) <==> AllCurrent(s, fp, ctx, items, n)
    ensures AllCurrent(s, fp, ctx, items, n) ==> IngestTo(s, fp, ctx, items, at, n).0 == s
  {
    hide IngestItem, Sound, IsCurrent;
    if n == 0 {
    } else {
      ResendDuplicates(s, fp, ctx, items, at, n - 1);
      var before, after := IngestTo(s, fp, ctx, items, at, n - 1), IngestTo(s, fp, ctx, items, at, n);
      CurrentIsDuplicate(before.0, fp, ctx, items[n - 1], at);
      assert after.1[n - 1] == IngestItem(before.0, fp, ctx, items[n - 1], at).1;
      assert forall i :: 0 <= i < n - 1 ==> after.1[i] == before.1[i];
      if AllDuplicate(after.1) {
        assert forall i :: 0 <= i < n - 1 ==> before.1[i] == after.1[i];
        assert AllDuplicate(before.1) && after.1[n - 1].verdict == Duplicate;
      }
    }
  }

  /** What a device sent last is current, so sending it again is sending duplicates. */
  lemma LastIsCurrent(s: Store, fp: Item -> Id, ctx: Context, log: seq<Sent>, item: Item)
    requires Sound(s) && CollisionFree(fp) && Reflects(s, fp, ctx, log)
    ensures IsCurrent(s, fp, ctx, item) <==>
            LastOf(log, item.localId).Some? && LastOf(log, item.localId).value.item == item
  {
    assert HoldsLast(s, fp, ctx, log, item.localId);
  }

  // ---------------------------------------------------------------- the repository

  class CallBook {
    /** The digest of an item. */
    const fp: Item -> Id

    var calls: seq<Call>
    var callIds: map<Key, nat>
    var fingerprints: map<Key, Id>
    var batches: map<(Id, Id, Id), Receipt>

    function Contents(): Store
      reads this
    {
      Store(calls, callIds, fingerprints)
    }

    ghost predicate Valid()
      reads this
    {
      Sound(Contents())
    }

    constructor (digest: Item -> Id)
      ensures Valid() && fp == digest && Contents() == Store([], map[], map[]) && batches == map[]
    {
      fp, calls, callIds, fingerprints, batches := digest, [], map[], map[], map[];
    }

    /** Accepts a batch once: under a known batch identifier the first answer is given again. */
    method IngestMobileCallBatch(trusted: bool, consented: bool, permitted: bool, ctx: Context, batchId: Id,
                                 payloadHash: Id, items: seq<Item>, at: Time)
      returns (outcome: Outcome)
      requires Valid()
      modifies this
      ensures Valid()
      ensures !trusted ==> outcome == NotAccepted
      ensures trusted && !consented ==> outcome == ConsentRequired
      ensures trusted && consented && !permitted ==> outcome == NotAccepted
      ensures !(trusted && consented && permitted) || (ctx.organizationId, ctx.deviceId, batchId) in old(batches) ==>
        Contents() == old(Contents()) && batches == old(batches)
      ensures var key := (ctx.organizationId, ctx.deviceId, batchId);
        trusted && consented && permitted && key in old(batches) ==>
          outcome == if old(batches)[key].payloadHash != payloadHash then Conflict else Accepted(old(batches)[key])
      ensures var key := (ctx.organizationId, ctx.deviceId, batchId);
        trusted && consented && permitted && key !in old(batches) ==>
          var r := Ingest(old(Contents()), fp, ctx, items, at);
          Contents() == r.0 && outcome == Accepted(Receipt(payloadHash, at, r.1)) &&
          batches == old(batches)[key := outcome.receipt]
    {
      if !trusted {
        return NotAccepted;
      }
      if !consented {
        return ConsentRequired;
      }
      if !permitted {
        return NotAccepted;
      }
      var batchKey := (ctx.organizationId, ctx.deviceId, batchId);
      if batchKey in batches {
        var prior := batches[batchKey];
        return if prior.payloadHash != payloadHash then Conflict else Accepted(prior);
      }
      ghost var was := Contents();
      var results: seq<ItemResult> := [];
      for n := 0 to |items|
        invariant Valid() && batches == old(batches)
        invariant (Contents(), results) == IngestTo(was, fp, ctx, items, at, n)
      {
        var result := IngestOne(ctx, items[n], at);
        results := results + [result];
      }
      var receipt := Receipt(payloadHash, at, results);
      batches := batches[batchKey := receipt];
      return Accepted(receipt);
    }

    method IngestOne(ctx: Context, item: Item, at: Time) returns (result: ItemResult)
      requires Valid()
      modifies this`calls, this`callIds, this`fingerprints
      ensures Valid() && (Contents(), result) == IngestItem(old(Contents()), fp, ctx, item, at)
    {
      var key := (ctx.organizationId, ctx.deviceId, item.localId);
      if key in callIds {
        var id := callIds[key];
        if fingerprints[key] == fp(item) {
          return ItemResult(item.localId, Duplicate, id);
        }
        var call := calls[id];
        call := call.(isInternal := item.isInternal.Some? && item.isInternal.value, body := item.body, updatedAt := at);
        calls := calls[id := call];
        fingerprints := fingerprints[key := fp(item)];
        return ItemResult(item.localId, Updated, id);
      }
      var call := Call(ctx.organizationId, ctx.employeeId, ctx.deviceId, item.localId, item.simCardId,
                       item.isInternal.Some? && item.isInternal.value, item.body, at, at);
      callIds := callIds[key := |calls|];
      fingerprints := fingerprints[key := fp(item)];
      calls := calls + [call];
      return ItemResult(item.localId, Created, |calls| - 1);
    }
  }
}
