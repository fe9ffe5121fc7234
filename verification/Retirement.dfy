/** The bounded record of why accepted grants were dropped: every grant that
    leaves is recorded, the record is first-in first-out, and a recorded grant
    is not accepted again. */
module Retirement {
  import opened Collections
  import opened JournalLine
  import opened JournalFile
  import G = GrantJournal
  import opened GrantVerifier
  import opened VerifierRuns

  /** The queue lists the recorded ids once each, within the bound. */
  ghost predicate RetiredOk(v: Verifier) {
    && Distinct(v.retiredOrder) && Elements(v.retiredOrder) == v.retired.Keys && |v.retiredOrder| <= MAX_RETIRED
    && forall id | id in v.retired :: v.retired[id] != Unknown
  }

  /** The id is recorded and at most `n` records are newer. */
  ghost predicate Held(v: Verifier, id: Id, n: nat) {
    exists i :: 0 <= i < |v.retiredOrder| && v.retiredOrder[i] == id && |v.retiredOrder| - 1 - i <= n
  }

  lemma HeldIsRecorded(v: Verifier, id: Id, n: nat)
    requires RetiredOk(v) && Held(v, id, n)
    ensures id in v.retired
  {
    assert id in Elements(v.retiredOrder);
  }

  lemma HeldLonger(v: Verifier, id: Id, n: nat, m: nat)
    requires Held(v, id, n) && n <= m
    ensures Held(v, id, m)
  {
    var i :| 0 <= i < |v.retiredOrder| && v.retiredOrder[i] == id && |v.retiredOrder| - 1 - i <= n;
  }

  lemma EvictOne(retired: map<Id, Denial>, order: seq<Id>)
    requires Distinct(order) && Elements(order) == retired.Keys && |order| <= MAX_RETIRED + 1
    ensures var (kept, rest) := EvictOldest(retired, order, MAX_RETIRED);
            && rest == (if |order| <= MAX_RETIRED then order else order[1..])
            && kept == retired - (if |order| <= MAX_RETIRED then {} else {order[0]})
            && Distinct(rest) && Elements(rest) == kept.Keys && |rest| <= MAX_RETIRED
  {
    if |order| > MAX_RETIRED {
      assert EvictOldest(retired, order, MAX_RETIRED) == EvictOldest(retired - {order[0]}, order[1..], MAX_RETIRED);
      assert Elements(order) == {order[0]} + Elements(order[1..]);
    }
  }

  /** Where a newly retired id goes. */
  function Queued(v: Verifier, id: Id): seq<Id> {
    if id in v.retired then v.retiredOrder else v.retiredOrder + [id]
  }

  lemma QueuedOk(v: Verifier, id: Id, reason: Denial)
    requires RetiredOk(v) && reason != Unknown
    ensures Distinct(Queued(v, id)) && Elements(Queued(v, id)) == v.retired[id := reason].Keys
    ensures |Queued(v, id)| <= MAX_RETIRED + 1
  {
    hide Distinct, Elements;
    if id !in v.retired {
      AddLast(v.retiredOrder, id);
    }
  }

  /** The queue after retiring, and what it still records. */
  lemma RetireQueue(v: Verifier, id: Id, reason: Denial) returns (order: seq<Id>)
    requires RetiredOk(v) && reason != Unknown
    ensures order == if id in v.retired then v.retiredOrder else v.retiredOrder + [id]
    ensures Retire(v, id, reason).retiredOrder == if |order| <= MAX_RETIRED then order else order[1..]
    ensures RetiredOk(Retire(v, id, reason)) && Retire(v, id, reason).retired.Keys <= v.retired.Keys + {id}
  {
    hide Distinct, EvictOldest, Elements;
    order := Queued(v, id);
    QueuedOk(v, id, reason);
    EvictOne(v.retired[id := reason], order);
  }

  lemma AddLast(order: seq<Id>, id: Id)
    requires Distinct(order) && id !in Elements(order)
    ensures Distinct(order + [id]) && Elements(order + [id]) == Elements(order) + {id}
  {
    forall i, j | 0 <= i < j < |order| + 1 ensures (order + [id])[i] != (order + [id])[j] {
      assert order[i] in Elements(order);
    }
  }

  lemma RetireKeepsHeld(v: Verifier, id: Id, reason: Denial, x: Id, n: nat)
    requires RetiredOk(v) && reason != Unknown && Held(v, x, n) && n + 1 < MAX_RETIRED
    ensures Held(Retire(v, id, reason), x, n + 1)
  {
    hide Retire, RetiredOk;
    var order := RetireQueue(v, id, reason);
    var after := Retire(v, id, reason).retiredOrder;
    var i :| 0 <= i < |v.retiredOrder| && v.retiredOrder[i] == x && |v.retiredOrder| - 1 - i <= n;
    assert order[i] == x;
    assert after[if |order| <= MAX_RETIRED then i else i - 1] == x;
  }

  /** Retiring keeps the record well formed, puts a new id last, and pushes out
      only a record that 9,999 newer ones follow. */
  lemma RetireStep(v: Verifier, id: Id, reason: Denial)
    requires RetiredOk(v) && reason != Unknown
    ensures RetiredOk(Retire(v, id, reason)) && Retire(v, id, reason).retired.Keys <= v.retired.Keys + {id}
    ensures id !in v.retired ==> Held(Retire(v, id, reason), id, 0)
    ensures forall x, n: nat | Held(v, x, n) && n + 1 < MAX_RETIRED :: Held(Retire(v, id, reason), x, n + 1)
  {
    hide Retire, RetiredOk;
    var order := RetireQueue(v, id, reason);
    var after := Retire(v, id, reason).retiredOrder;
    if id !in v.retired {
      assert after[|after| - 1] == id;
      assert Held(Retire(v, id, reason), id, 0);
    }
    hide Held;
    forall x, n: nat | Held(v, x, n) && n + 1 < MAX_RETIRED ensures Held(Retire(v, id, reason), x, n + 1) {
      RetireKeepsHeld(v, id, reason, x, n);
    }
  }

  /** Dropping up to 10,000 grants records them all. */
  lemma {:induction false} DropAllRecords(v: Verifier, ids: seq<Id>, reason: Denial)
    requires RetiredOk(v) && reason != Unknown && Distinct(ids) && |ids| <= MAX_RETIRED
    requires forall id | id in ids :: id !in v.retired
    ensures var v' := DropAll(v, ids, reason);
            && RetiredOk(v') && (forall id | id in ids :: id in v'.retired)
            && (forall id | id in v'.retired :: id in v.retired || id in ids)
    ensures forall x, n: nat | Held(v, x, n) && n + |ids| < MAX_RETIRED ::
              Held(DropAll(v, ids, reason), x, n + |ids|)
    decreases |ids|
  {
    hide EvictOldest;
    if ids != [] {
      var v0 := v.(accepted := v.accepted - {ids[0]});
      var v1 := Drop(v, ids[0], reason);
      RetireStep(v0, ids[0], reason);
      assert forall id | id in ids[1..] :: id in ids && id != ids[0];
      DropAllRecords(v1, ids[1..], reason);
      var v' := DropAll(v, ids, reason);
      assert Held(v1, ids[0], 0);
      assert Held(v', ids[0], 0 + |ids[1..]|);
      HeldIsRecorded(v', ids[0], |ids[1..]|);
      forall x, n: nat | Held(v, x, n) && n + |ids| < MAX_RETIRED ensures Held(v', x, n + |ids|) {
        assert Held(v0, x, n);
        assert Held(v1, x, n + 1);
        assert Held(v', x, (n + 1) + |ids[1..]|);
      }
    }
  }

  /** Grants dropped together are held behind at most one another. */
  lemma {:induction false} DropAllHeld(v: Verifier, ids: seq<Id>, reason: Denial, id: Id)
    requires RetiredOk(v) && reason != Unknown && Distinct(ids) && |ids| <= MAX_RETIRED
    requires id in ids && forall x | x in ids :: x !in v.retired
    ensures Held(DropAll(v, ids, reason), id, |ids| - 1)
    decreases |ids|
  {
    hide EvictOldest, Held, RetiredOk;
    var v0 := v.(accepted := v.accepted - {ids[0]});
    var v1 := Drop(v, ids[0], reason);
    SameRetired(v, v0);
    RetireStep(v0, ids[0], reason);
    assert forall x | x in ids[1..] :: x in ids && x != ids[0];
    if id == ids[0] {
      DropAllRecords(v1, ids[1..], reason);
      assert Held(v1, id, 0);
    } else {
      DropAllHeld(v1, ids[1..], reason, id);
      HeldLonger(DropAll(v, ids, reason), id, |ids[1..]| - 1, |ids| - 1);
    }
  }

  lemma SameRetired(v: Verifier, v': Verifier)
    requires RetiredOk(v) && v'.retired == v.retired && v'.retiredOrder == v.retiredOrder
    ensures RetiredOk(v')
  {
  }

  // ---- Over the steps of a process -----------------------------------------------------

  ghost predicate RecordOk(v: Verifier) {
    RetiredOk(v) && |v.accepted| <= MAX_ACCEPTED && v.accepted.Keys !! v.retired.Keys
  }

  /** An enumeration is as long as its set is large. */
  lemma {:induction false} EnumerationSize(order: seq<Id>, ids: set<Id>)
    requires Enumerates(order, ids)
    ensures |order| == |ids|
    decreases |order|
  {
    if order != [] {
      ElementsStep(order);
      var n := |order| - 1;
      EnumerationSize(order[..n], Elements(order[..n]));
    }
  }

  /** Dropping an enumerated part of the accepted grants records each of them. */
  lemma DropHits(v: Verifier, order: seq<Id>, ids: set<Id>, reason: Denial)
    requires RecordOk(v) && reason != Unknown && Enumerates(order, ids) && ids <= v.accepted.Keys
    ensures var v' := DropAll(v, order, reason);
            && RecordOk(v') && ids <= v'.retired.Keys && v'.accepted.Keys == v.accepted.Keys - ids
  {
    EnumerationSize(order, ids);
    SubsetSize(ids, v.accepted.Keys);
    forall id | id in order ensures id !in v.retired {
      assert id in Elements(order);
    }
    DropAllRecords(v, order, reason);
    DropAllFacts(v, order, reason);
    var v' := DropAll(v, order, reason);
    SubsetSize(v'.accepted.Keys, v.accepted.Keys);
    forall id | id in ids ensures id in v'.retired {
      assert id in Elements(order);
    }
    forall id | id in v'.retired ensures id !in v'.accepted {
      if id in order {
        assert id in Elements(order);
      }
    }
  }

  ghost predicate WorldRecordOk(w: World) { w.process.Some? ==> RecordOk(w.process.value) }

  /** Grants that left in this step are known: recorded, tombstoned or consumed. */
  ghost predicate LeaversKnown(v: Verifier, v': Verifier) {
    forall id | id in v.accepted && id !in v'.accepted :: MissingDenial(v', id) != Unknown
  }

  predicate SameRecord(v: Verifier, v': Verifier) {
    v'.accepted == v.accepted && v'.retired == v.retired && v'.retiredOrder == v.retiredOrder
  }

  lemma DropsRecorded(v: Verifier, v2: Verifier, v': Verifier, order: seq<Id>, ids: set<Id>, reason: Denial)
    requires RecordOk(v) && reason != Unknown && SameRecord(v, v2) && Enumerates(order, ids) && ids <= v.accepted.Keys
    requires SameRecord(DropAll(v2, order, reason), v')
    ensures RecordOk(v') && LeaversKnown(v, v')
  {
    DropHits(v2, order, ids, reason);
  }

  /** What a reply does to the accepted grants and their record. */
  lemma ReplyRetires(w: World, e: Event) returns (v2: Verifier, order: seq<Id>, ids: set<Id>)
    requires Enabled(w, e) && e.Replies?
    ensures SameRecord(w.process.value, v2) && Enumerates(order, ids) && ids <= w.process.value.accepted.Keys
    ensures SameRecord(DropAll(v2, order, Expired), Step(w, e).process.value)
  {
    var v := w.process.value;
    v2 := ReplyShape(w.d, v, e.r, e.nodeId, e.epoch, e.boot, e.io);
    order, ids := [], {};
    if AcceptReply(w.d, v, e.r, e.nodeId, e.epoch, e.boot, e.io).2 {
      order, ids := e.io.expiredOrder, ExpiredIds(v, CheckReply(v, e.r, e.nodeId, e.epoch, e.boot).value, e.boot);
    }
  }

  lemma ReplyRecords(w: World, e: Event)
    requires WorldRecordOk(w) && Enabled(w, e) && e.Replies?
    ensures WorldRecordOk(Step(w, e)) && LeaversKnown(w.process.value, Step(w, e).process.value)
  {
    var v2, order, ids := ReplyRetires(w, e);
    DropsRecorded(w.process.value, v2, Step(w, e).process.value, order, ids, Expired);
  }

  lemma RevokeRecords(w: World, e: Event)
    requires WorldRecordOk(w) && Enabled(w, e) && e.Revokes?
    ensures WorldRecordOk(Step(w, e)) && LeaversKnown(w.process.value, Step(w, e).process.value)
  {
    var v := w.process.value;
    RevokeInForce(w, e);
    if e.id in v.accepted {
      assert DropAll(v, [e.id], Revoked) == Drop(v, e.id, Revoked);
      DropHits(v, [e.id], {e.id}, Revoked);
    }
  }

  lemma WithdrawRecords(w: World, e: Event)
    requires WorldRecordOk(w) && Enabled(w, e) && e.Withdraws?
    ensures WorldRecordOk(Step(w, e)) && LeaversKnown(w.process.value, Step(w, e).process.value)
  {
    hide RecordOk, DropAll;
    var v, v' := w.process.value, Step(w, e).process.value;
    if !Ignored(v, e.x) {
      DropsRecorded(v, v, v', e.order, HitIds(v, e.x), DenialOf(e.x));
    }
  }

  lemma AddUnknown(v: Verifier, v': Verifier, id: Id)
    requires RecordOk(v) && v'.accepted.Keys == v.accepted.Keys + {id} && MissingDenial(v, id) == Unknown
    requires v'.retired == v.retired && v'.retiredOrder == v.retiredOrder && |v'.accepted| <= MAX_ACCEPTED
    ensures RecordOk(v')
  {
  }

  lemma DeliverRecords(w: World, e: Event)
    requires WorldRecordOk(w) && Enabled(w, e) && e.Delivers?
    ensures WorldRecordOk(Step(w, e)) && LeaversKnown(w.process.value, Step(w, e).process.value)
    ensures e.g.id in Step(w, e).process.value.accepted && e.g.id !in w.process.value.accepted ==>
              MissingDenial(w.process.value, e.g.id) == Unknown
  {
    var v, v' := w.process.value, Step(w, e).process.value;
    AcceptGrantFacts(v, e.g, e.digest, e.nodeId, e.keyId, e.p, e.reg, e.boot);
    AcceptKeepsBound(v, e.g, e.digest, e.nodeId, e.keyId, e.p, e.reg, e.boot);
    if v' != v {
      AddUnknown(v, v', e.g.id);
    }
  }

  lemma AcceptKeepsBound(
    v: Verifier, g: Grant, digest: string, nodeId: Id, keyId: string, p: Policy, r: Registration, boot: nat)
    requires |v.accepted| <= MAX_ACCEPTED
    ensures |AcceptGrant(v, g, digest, nodeId, keyId, p, r, boot).0.accepted| <= MAX_ACCEPTED
  {
  }

  lemma ConsumeLeaves(
    d: Durable, v: Verifier, id: Id, a: Authorization, policyVersion: nat, boot: nat, io: G.AppendIo)
    ensures var (_, v', ok) := Consume(d, v, id, a, policyVersion, boot, io);
            && v'.retired == v.retired && v'.retiredOrder == v.retiredOrder
            && (!ok ==> v'.accepted == v.accepted)
            && (ok ==> id in v.accepted
                       && v'.accepted == v.accepted - {v.accepted[id].grant.id}
                       && v.accepted[id].grant.id in v'.journal.state.consumed)
  {
  }

  lemma ConsumeRecords(w: World, e: Event)
    requires WorldRecordOk(w) && Enabled(w, e) && e.Consumes?
    ensures WorldRecordOk(Step(w, e)) && LeaversKnown(w.process.value, Step(w, e).process.value)
  {
    var v, v' := w.process.value, Step(w, e).process.value;
    ConsumeLeaves(w.d, v, e.id, e.a, e.policyVersion, e.boot, e.appendIo);
    SubsetSize(v'.accepted.Keys, v.accepted.Keys);
  }

  /** Every grant that leaves in a step is known afterwards, and only an unknown
      grant is newly accepted. */
  lemma LeavingIsRecorded(w: World, e: Event, expiry: Id -> nat)
    requires WorldRecordOk(w) && MemoryOk(w, expiry) && Enabled(w, e)
    ensures WorldRecordOk(Step(w, e))
    ensures w.process.Some? && !e.Crashes? ==>
              && Step(w, e).process.Some? && LeaversKnown(w.process.value, Step(w, e).process.value)
              && forall id | id in Step(w, e).process.value.accepted && id !in w.process.value.accepted ::
                   MissingDenial(w.process.value, id) == Unknown
  {
    match e {
      case Replies(_, _, _, _, _) => ReplyRecords(w, e); ReplyMemory(w, e);
      case Revokes(_, _, _, _) => RevokeRecords(w, e); OtherMemory(w, e);
      case Withdraws(_, _) => WithdrawRecords(w, e); OtherMemory(w, e);
      case Delivers(_, _, _, _, _, _, _) => DeliverRecords(w, e); AcceptFacts(w, e);
      case Consumes(_, _, _, _, _) => ConsumeRecords(w, e); OtherMemory(w, e);
      case _ =>
    }
  }

  lemma {:induction false} RunRecords(ws: seq<World>, es: seq<Event>, expiry: Id -> nat, i: nat)
    requires IsRun(ws, es, expiry) && i < |ws|
    ensures WorldRecordOk(ws[i]) && MemoryOk(ws[i], expiry)
  {
    if i > 0 {
      RunRecords(ws, es, expiry, i - 1);
      LeavingIsRecorded(ws[i - 1], es[i - 1], expiry);
      StepKeepsMemory(ws[i - 1], es[i - 1], expiry);
    }
  }

  /** A grant that left is not accepted again while it stays known, for as long
      as the process runs. */
  lemma {:induction false} NotAgainWhileKnown(
    ws: seq<World>, es: seq<Event>, expiry: Id -> nat, i: nat, j: nat, id: Id)
    requires IsRun(ws, es, expiry) && i < j < |ws|
    requires forall k | i <= k <= j :: ws[k].process.Some?
    requires forall k | i <= k < j :: !es[k].Crashes?
    requires id in ws[i].process.value.accepted && id !in ws[i + 1].process.value.accepted
    requires forall k | i + 1 < k < j :: MissingDenial(ws[k].process.value, id) != Unknown
    ensures id !in ws[j].process.value.accepted
    decreases j
  {
    if j > i + 1 {
      NotAgainWhileKnown(ws, es, expiry, i, j - 1, id);
      RunRecords(ws, es, expiry, j - 1);
      LeavingIsRecorded(ws[j - 1], es[j - 1], expiry);
      if j == i + 2 {
        RunRecords(ws, es, expiry, i);
        LeavingIsRecorded(ws[i], es[i], expiry);
      }
    }
  }

  // ---- How long a record lasts -------------------------------------------------------------

  function Keys(w: World): set<Id> { if w.process.Some? then w.process.value.accepted.Keys else {} }

  /** The grants this step drops; a consumed grant is in the journal instead. */
  ghost function Dropped(w: World, e: Event): set<Id>
    requires Enabled(w, e)
  {
    if e.Consumes? then {} else Keys(w) - Keys(Step(w, e))
  }

  /** How the record moves on: what is held is pushed back by the dropped grants,
      and those are held behind at most one another. */
  ghost predicate Pushed(v: Verifier, v': Verifier, dropped: set<Id>) {
    && (forall x, n: nat | Held(v, x, n) && n + |dropped| < MAX_RETIRED :: Held(v', x, n + |dropped|))
    && (forall x | x in dropped :: Held(v', x, |dropped| - 1))
  }

  lemma SameQueue(v: Verifier, v': Verifier, x: Id, n: nat)
    requires v'.retiredOrder == v.retiredOrder && Held(v, x, n)
    ensures Held(v', x, n)
  {
    var i :| 0 <= i < |v.retiredOrder| && v.retiredOrder[i] == x && |v.retiredOrder| - 1 - i <= n;
    assert v'.retiredOrder[i] == x;
  }

  lemma SameRecordPushed(v: Verifier, v': Verifier)
    requires v'.retiredOrder == v.retiredOrder
    ensures Pushed(v, v', {})
  {
    hide Held;
    forall x, n: nat | Held(v, x, n) ensures Held(v', x, n) {
      SameQueue(v, v', x, n);
    }
  }

  lemma DropOrderPushed(v: Verifier, order: seq<Id>, reason: Denial)
    requires RetiredOk(v) && reason != Unknown && Distinct(order) && |order| <= MAX_RETIRED
    requires forall id | id in order :: id !in v.retired
    ensures var d := DropAll(v, order, reason);
            && (forall x, n: nat | Held(v, x, n) && n + |order| < MAX_RETIRED :: Held(d, x, n + |order|))
            && (forall x | x in order :: Held(d, x, |order| - 1))
  {
    hide Held, DropAll, RetiredOk, Distinct;
    DropAllRecords(v, order, reason);
    forall x | x in order ensures Held(DropAll(v, order, reason), x, |order| - 1) {
      DropAllHeld(v, order, reason, x);
    }
  }

  /** An enumerated part of the accepted grants is new to the record. */
  lemma DropOrder(v: Verifier, order: seq<Id>, ids: set<Id>)
    requires RecordOk(v) && Enumerates(order, ids) && ids <= v.accepted.Keys
    ensures |order| == |ids| <= MAX_RETIRED && Distinct(order) && Elements(order) == ids && RetiredOk(v)
    ensures forall id | id in order :: id !in v.retired
    ensures forall id | id in ids :: id in order
  {
    EnumerationSize(order, ids);
    SubsetSize(ids, v.accepted.Keys);
    forall id | id in order ensures id !in v.retired {
      assert id in Elements(order);
    }
  }

  lemma DropAllPushed(v: Verifier, order: seq<Id>, ids: set<Id>, reason: Denial)
    requires RecordOk(v) && reason != Unknown && Enumerates(order, ids) && ids <= v.accepted.Keys
    ensures Pushed(v, DropAll(v, order, reason), ids)
    ensures v.accepted.Keys - DropAll(v, order, reason).accepted.Keys == ids
  {
    hide Held, DropAll, RetiredOk, RecordOk, Distinct, Enumerates, Elements;
    DropOrder(v, order, ids);
    DropOrderPushed(v, order, reason);
    DropAllFacts(v, order, reason);
  }

  lemma PushedSame(v: Verifier, v2: Verifier, d: Verifier, v': Verifier, dropped: set<Id>)
    requires v2.retiredOrder == v.retiredOrder && v'.retiredOrder == d.retiredOrder && Pushed(v2, d, dropped)
    ensures Pushed(v, v', dropped)
  {
    hide Held;
    forall x, n: nat | Held(v, x, n) && n + |dropped| < MAX_RETIRED ensures Held(v', x, n + |dropped|) {
      SameQueue(v, v2, x, n);
      SameQueue(d, v', x, n + |dropped|);
    }
    forall x | x in dropped ensures Held(v', x, |dropped| - 1) {
      SameQueue(d, v', x, |dropped| - 1);
    }
  }

  lemma DropsPushed(v: Verifier, v2: Verifier, v': Verifier, order: seq<Id>, ids: set<Id>, reason: Denial)
    requires RecordOk(v) && reason != Unknown && SameRecord(v, v2) && Enumerates(order, ids) && ids <= v.accepted.Keys
    requires SameRecord(DropAll(v2, order, reason), v')
    ensures Pushed(v, v', ids) && v.accepted.Keys - v'.accepted.Keys == ids
  {
    hide Held, DropAll, Pushed, Enumerates;
    SameRetired(v, v2);
    DropAllPushed(v2, order, ids, reason);
    PushedSame(v, v2, DropAll(v2, order, reason), v', ids);
  }

  lemma RevokePushed(w: World, e: Event)
    requires WorldRecordOk(w) && Enabled(w, e) && e.Revokes?
    ensures Pushed(w.process.value, Step(w, e).process.value, Dropped(w, e))
  {
    var v, v' := w.process.value, Step(w, e).process.value;
    if e.id in v.accepted {
      assert DropAll(v, [e.id], Revoked) == Drop(v, e.id, Revoked);
      assert Enumerates([e.id], {e.id});
      DropsPushed(v, v, v', [e.id], {e.id}, Revoked);
    } else {
      SameRecordPushed(v, v');
      assert Dropped(w, e) == {};
    }
  }

  lemma StepPushed(w: World, e: Event)
    requires WorldRecordOk(w) && Enabled(w, e) && w.process.Some? && !e.Crashes? && Step(w, e).process.Some?
    ensures Pushed(w.process.value, Step(w, e).process.value, Dropped(w, e))
  {
    hide RecordOk, DropAll, Pushed;
    var v, v' := w.process.value, Step(w, e).process.value;
    match e {
      case Replies(_, _, _, _, _) =>
        var v2, order, ids := ReplyRetires(w, e);
        DropsPushed(v, v2, v', order, ids, Expired);
      case Withdraws(x, order) =>
        if Ignored(v, x) {
          SameRecordPushed(v, v');
          assert Dropped(w, e) == {};
        } else {
          DropsPushed(v, v, v', order, HitIds(v, x), DenialOf(x));
        }
      case Revokes(_, _, _, _) => RevokePushed(w, e);
      case Consumes(_, _, _, _, _) =>
        ConsumeLeaves(w.d, v, e.id, e.a, e.policyVersion, e.boot, e.appendIo);
        SameRecordPushed(v, v');
      case Delivers(_, _, _, _, _, _, _) =>
        AcceptGrantFacts(v, e.g, e.digest, e.nodeId, e.keyId, e.p, e.reg, e.boot);
        SameRecordPushed(v, v');
        assert Dropped(w, e) == {};
      case Challenges(_, _) => SameRecordPushed(v, v'); assert Dropped(w, e) == {};
      case Retries(_, _) => SameRecordPushed(v, v'); assert Dropped(w, e) == {};
      case Binds(_, _, _) => SameRecordPushed(v, v'); assert Dropped(w, e) == {};
      case Starts(_, _) =>
      case Crashes =>
    }
  }

  /** How many grants the steps from `i` to `j` drop. */
  ghost function DroppedBetween(ws: seq<World>, es: seq<Event>, expiry: Id -> nat, i: nat, j: nat): nat
    requires IsRun(ws, es, expiry) && i <= j <= |es|
    decreases j
  {
    if i == j then 0 else DroppedBetween(ws, es, expiry, i, j - 1) + |Dropped(ws[j - 1], es[j - 1])|
  }

  /** The process runs on from `i` to `j`. */
  predicate RunsOn(ws: seq<World>, es: seq<Event>, i: nat, j: nat)
    requires i <= j < |ws| && |ws| == |es| + 1
  {
    (forall k | i <= k <= j :: ws[k].process.Some?) && forall k | i <= k < j :: !es[k].Crashes?
  }

  lemma {:induction false} StillHeld(ws: seq<World>, es: seq<Event>, expiry: Id -> nat, i: nat, j: nat, id: Id)
    requires IsRun(ws, es, expiry) && i < j < |ws| && RunsOn(ws, es, i, j) && id in Dropped(ws[i], es[i])
    requires DroppedBetween(ws, es, expiry, i, j) <= MAX_RETIRED
    ensures DroppedBetween(ws, es, expiry, i, j) > 0
    ensures Held(ws[j].process.value, id, DroppedBetween(ws, es, expiry, i, j) - 1)
    decreases j
  {
    hide Enabled, Step, Dropped, Held, WorldRecordOk;
    RunRecords(ws, es, expiry, j - 1);
    assert ws[j].process.Some? && ws[j] == Step(ws[j - 1], es[j - 1]);
    StepPushed(ws[j - 1], es[j - 1]);
    if j > i + 1 {
      StillHeld(ws, es, expiry, i, j - 1, id);
    } else {
      assert DroppedBetween(ws, es, expiry, i, i) == 0;
    }
  }

  /** A grant that was dropped is not accepted again, for as long as the process
      runs, before more than 10,000 grants have been dropped, itself included. */
  lemma NotAgainBeforeEvicted(ws: seq<World>, es: seq<Event>, expiry: Id -> nat, i: nat, j: nat, id: Id)
    requires IsRun(ws, es, expiry) && i < j < |ws| && RunsOn(ws, es, i, j) && id in Dropped(ws[i], es[i])
    requires DroppedBetween(ws, es, expiry, i, j) <= MAX_RETIRED
    ensures id !in ws[j].process.value.accepted && id in ws[j].process.value.retired
  {
    StillHeld(ws, es, expiry, i, j, id);
    RunRecords(ws, es, expiry, j);
    HeldIsRecorded(ws[j].process.value, id, DroppedBetween(ws, es, expiry, i, j) - 1);
  }
}
