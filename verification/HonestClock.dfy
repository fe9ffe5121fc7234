/** Runs under an honest controller clock: controller time is boottime plus a
    constant, and a reply's stamps lie between sending the challenge and
    receiving the answer. Whatever delay the relay adds and whichever write
    fails, a grant is consumed at most once and strictly before its expiry. */
module HonestClock {
  import opened JournalLine
  import opened JournalFile
  import G = GrantJournal
  import J = JournalRuns
  import opened GrantVerifier
  import opened VerifierRuns

  /** True controller time. */
  function Now(w: World): int { w.boot + w.offset }

  /** The controller stamps arrival and response honestly. */
  predicate HonestStamps(r: Reply, sentAt: nat, boot: nat, offset: int) {
    sentAt + offset <= r.receivedAt <= r.controllerTime <= boot + offset
  }

  /** The estimate is never below true controller time at receipt, however the
      round trip was spent. */
  lemma EstimateIsUpperBound(r: Reply, sentAt: nat, boot: nat, offset: int)
    requires HonestStamps(r, sentAt, boot, offset) && Estimate(r, sentAt, boot).Some?
    ensures Estimate(r, sentAt, boot).value >= boot + offset
    ensures Estimate(r, sentAt, boot).value <= boot + offset + (boot - sentAt)
  {
    assert r.controllerTime - r.receivedAt <= boot - sentAt;
  }

  predicate HonestEvent(w: World, e: Event) {
    e.Replies? && w.process.Some? && w.process.value.pending.Some?
    && e.r.challenge == w.process.value.pending.value.value ==>
      HonestStamps(e.r, w.process.value.pending.value.sentAt, e.boot, w.offset)
  }

  /** Trusted time runs at or ahead of true time, so every deadline falls no
      later than the signed expiry. */
  predicate ClockOk(w: World, expiry: Id -> nat) {
    w.process.Some? ==>
      var v := w.process.value;
      && (v.trusted.Some? ==>
            v.trusted.value.receivedAt <= w.boot
            && v.trusted.value.estimated >= v.trusted.value.receivedAt + w.offset)
      && (v.pending.Some? ==> v.pending.value.sentAt <= w.boot)
      && (forall id | id in v.accepted :: v.accepted[id].deadline + w.offset <= expiry(id))
  }

  /** A spent grant is still recorded, or its expiry has truly passed. */
  predicate SpentHonest(w: World, expiry: Id -> nat) {
    forall id | id in w.spent :: (id in Ledger(w) && Ledger(w)[id] == expiry(id)) || Now(w) >= expiry(id)
  }

  /** Retained records expire after the pruned boundary, which lies a whole
      replay retention in the past. */
  predicate PruneOk(w: World) {
    var l := J.Current(w.d.disk);
    && J.AbovePruned(l)
    && (l.history.Some? ==>
          l.history.value.prunedThrough == 0 || l.history.value.prunedThrough + G.RETENTION_MS <= Now(w))
  }

  predicate HonestInv(w: World, expiry: Id -> nat) {
    JournalOk(w) && MemoryOk(w, expiry) && ClockOk(w, expiry) && SpentHonest(w, expiry) && PruneOk(w)
  }

  lemma TimeMovesOn(w: World, e: Event)
    requires Enabled(w, e)
    ensures Now(Step(w, e)) >= Now(w)
    ensures !e.Starts? ==> Step(w, e).offset == w.offset && Step(w, e).boot >= w.boot
  {
  }

  // ---- The clock ---------------------------------------------------------------

  lemma ReplyKeepsClock(w: World, e: Event, expiry: Id -> nat)
    requires ClockOk(w, expiry) && Enabled(w, e) && HonestEvent(w, e) && e.Replies?
    ensures ClockOk(Step(w, e), expiry)
  {
    ReplyMemory(w, e);
    TimeMovesOn(w, e);
    var v := w.process.value;
    if CheckReply(v, e.r, e.nodeId, e.epoch, e.boot).Some? {
      EstimateIsUpperBound(e.r, v.pending.value.sentAt, e.boot, w.offset);
    }
  }

  lemma DeliverKeepsClock(w: World, e: Event, expiry: Id -> nat)
    requires ClockOk(w, expiry) && Enabled(w, e) && Genuine(e, expiry) && e.Delivers?
    ensures ClockOk(Step(w, e), expiry)
  {
    OtherMemory(w, e);
    AcceptFacts(w, e);
    TimeMovesOn(w, e);
  }

  lemma OtherKeepsClock(w: World, e: Event, expiry: Id -> nat)
    requires ClockOk(w, expiry) && Enabled(w, e) && !e.Replies? && !e.Delivers?
    ensures ClockOk(Step(w, e), expiry)
  {
    TimeMovesOn(w, e);
    if w.process.Some? && !e.Crashes? {
      OtherMemory(w, e);
    }
  }

  // ---- The journal ---------------------------------------------------------------

  lemma PruneBoundary(l: Loaded, t: nat, now: int)
    requires l.history.Some? && t <= now
    requires l.history.value.prunedThrough == 0 || l.history.value.prunedThrough + G.RETENTION_MS <= now
    ensures var p := G.Pruned(l, t).history.value.prunedThrough;
            p == 0 || p + G.RETENTION_MS <= now
  {
    var gone := l.consumed.Keys - G.KeptIds(l, t);
    var boundary := G.Largest(l.consumed, gone);
    assert forall id | id in gone :: l.consumed[id] + G.RETENTION_MS <= t;
  }

  lemma ReplyKeepsPrune(w: World, e: Event, expiry: Id -> nat)
    requires JournalOk(w) && PruneOk(w) && Enabled(w, e) && HonestEvent(w, e) && e.Replies?
    ensures PruneOk(Step(w, e))
  {
    ReplyLedger(w, e);
    TimeMovesOn(w, e);
    if Step(w, e).d.disk != w.d.disk {
      ReplyJournal(w, e);
      var v, t := w.process.value, e.r.controllerTime;
      J.PruneStep(w.d.disk, v.journal, t, e.io.pruneOrder, e.io.prune);
      if !J.Moved(w.d.disk, Step(w, e).d.disk, J.Same) {
        J.AbovePrunedApply(J.Current(w.d.disk), J.Removed(t));
        if J.Current(w.d.disk).history.Some? {
          PruneBoundary(J.Current(w.d.disk), t, Now(Step(w, e)));
        }
      }
    }
  }

  lemma ConsumeKeepsPrune(w: World, e: Event, expiry: Id -> nat)
    requires HonestInv(w, expiry) && Enabled(w, e) && e.Consumes?
    ensures PruneOk(Step(w, e))
  {
    TimeMovesOn(w, e);
    var v := w.process.value;
    if Validate(v, e.id, e.a, e.policyVersion, e.boot).None? {
      var g := v.accepted[e.id].grant;
      J.RecordStep(w.d.disk, v.journal, Intent(g), g.nodeId, e.appendIo);
      if !J.Moved(w.d.disk, Step(w, e).d.disk, J.Same) {
        assert e.boot + w.offset < g.expiresAt;
        J.AbovePrunedApply(J.Current(w.d.disk), J.Added(Intent(g)));
      }
    }
  }

  lemma OtherKeepsPrune(w: World, e: Event)
    requires JournalOk(w) && PruneOk(w) && Enabled(w, e) && !e.Replies? && !e.Consumes?
    ensures PruneOk(Step(w, e))
  {
    TimeMovesOn(w, e);
    if e.Starts? {
      J.OpenReads(w.d.disk);
    } else if e.Binds? {
      J.BindStep(w.d.disk, e.pin, e.order, e.bindIo);
      if !J.Moved(w.d.disk, Step(w, e).d.disk, J.Same) {
        J.AbovePrunedApply(J.Current(w.d.disk), J.Rebound(e.pin));
      }
    }
  }

  // ---- One use ---------------------------------------------------------------------

  lemma ReplyKeepsSpentHonest(w: World, e: Event, expiry: Id -> nat)
    requires JournalOk(w) && SpentHonest(w, expiry) && Enabled(w, e) && HonestEvent(w, e) && e.Replies?
    ensures SpentHonest(Step(w, e), expiry)
  {
    TimeMovesOn(w, e);
    ReplyLedger(w, e);
    if Step(w, e).d.disk != w.d.disk {
      assert e.r.controllerTime <= Now(Step(w, e));
    }
  }

  /** A consumption that succeeds is the grant's first, happens strictly before
      its signed expiry and strictly within its local ceiling. */
  lemma ConsumeHonest(w: World, e: Event, expiry: Id -> nat)
    requires HonestInv(w, expiry) && Enabled(w, e) && e.Consumes?
    ensures SpentHonest(Step(w, e), expiry)
    ensures HandsOut(w, e) ==>
              && e.id !in w.spent && Now(Step(w, e)) < expiry(e.id)
              && e.id in w.ceilings && e.boot < w.ceilings[e.id]
  {
    hide PruneOk, Ledger, JournalOk, G.Record;
    ConsumeLedger(w, e);
    TimeMovesOn(w, e);
  }

  lemma StepKeepsHonest(w: World, e: Event, expiry: Id -> nat)
    requires HonestInv(w, expiry) && Enabled(w, e) && Genuine(e, expiry) && HonestEvent(w, e)
    ensures HonestInv(Step(w, e), expiry)
  {
    StepKeepsMemory(w, e, expiry);
    if e.Replies? {
      ReplyLedger(w, e);
      ReplyKeepsClock(w, e, expiry);
      ReplyKeepsPrune(w, e, expiry);
      ReplyKeepsSpentHonest(w, e, expiry);
    } else if e.Consumes? {
      ConsumeLedger(w, e);
      OtherKeepsClock(w, e, expiry);
      ConsumeKeepsPrune(w, e, expiry);
      ConsumeHonest(w, e, expiry);
    } else {
      OtherLedger(w, e);
      if e.Delivers? { DeliverKeepsClock(w, e, expiry); } else { OtherKeepsClock(w, e, expiry); }
      OtherKeepsPrune(w, e);
      TimeMovesOn(w, e);
      SpentUnchanged(w, e);
    }
  }

  lemma SpentUnchanged(w: World, e: Event)
    requires Enabled(w, e) && !e.Consumes?
    ensures Step(w, e).spent == w.spent
  {
  }

  // ---- Runs --------------------------------------------------------------------------

  ghost predicate HonestRun(ws: seq<World>, es: seq<Event>, expiry: Id -> nat) {
    && IsRun(ws, es, expiry) && PruneOk(ws[0])
    && forall i | 0 <= i < |es| :: HonestEvent(ws[i], es[i])
  }

  lemma {:induction false} RunHonest(ws: seq<World>, es: seq<Event>, expiry: Id -> nat, i: nat)
    requires HonestRun(ws, es, expiry) && i < |ws|
    ensures HonestInv(ws[i], expiry)
  {
    if i > 0 {
      RunHonest(ws, es, expiry, i - 1);
      StepKeepsHonest(ws[i - 1], es[i - 1], expiry);
    }
  }

  /** At most once under an honest clock, with every failure allowed. */
  lemma AtMostOnceHonest(ws: seq<World>, es: seq<Event>, expiry: Id -> nat, i: nat, j: nat)
    requires HonestRun(ws, es, expiry) && i < j < |es|
    requires HandsOut(ws[i], es[i]) && HandsOut(ws[j], es[j])
    ensures es[i].id != es[j].id
  {
    RunHonest(ws, es, expiry, j);
    ConsumeHonest(ws[j], es[j], expiry);
    SpentGrows(ws[i], es[i]);
    SpentStays(ws, es, expiry, i + 1, j);
  }

  /** No consumption at or after signed expiry, nor past a local ceiling. */
  lemma NeverAfterExpiry(ws: seq<World>, es: seq<Event>, expiry: Id -> nat, i: nat)
    requires HonestRun(ws, es, expiry) && i < |es| && HandsOut(ws[i], es[i])
    ensures es[i].boot + ws[i].offset < expiry(es[i].id)
    ensures es[i].id in ws[i].ceilings && es[i].boot < ws[i].ceilings[es[i].id]
  {
    RunHonest(ws, es, expiry, i);
    ConsumeHonest(ws[i], es[i], expiry);
    TimeMovesOn(ws[i], es[i]);
  }

  /** A grant is newly accepted only within a minute of true controller time
      after it was issued. */
  lemma AcceptedSoonAfterIssue(ws: seq<World>, es: seq<Event>, expiry: Id -> nat, i: nat)
    requires HonestRun(ws, es, expiry) && i < |es| && es[i].Delivers?
    ensures es[i].g.id in ws[i + 1].process.value.accepted && es[i].g.id !in ws[i].process.value.accepted ==>
              es[i].boot + ws[i].offset <= es[i].g.issuedAt + MAX_DOCUMENT_AGE_MS
  {
    RunHonest(ws, es, expiry, i);
    AcceptFacts(ws[i], es[i]);
  }

  /** Under an honest clock every retained record stays above the pruned
      boundary whichever writes fail, with no reply that must end its process. */
  lemma RecordsAbovePruned(ws: seq<World>, es: seq<Event>, expiry: Id -> nat, i: nat)
    requires HonestRun(ws, es, expiry) && i < |ws|
    ensures J.AbovePruned(J.Current(ws[i].d.disk))
  {
    RunHonest(ws, es, expiry, i);
  }
}
