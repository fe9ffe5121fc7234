/** Revocation over runs: once `revoke` has run, even with an error, the grant
    is never handed out again by that process; and outside `unpersisted` the
    file always says what memory says. */
module RevocationRuns {
  import opened Text
  import opened JournalLine
  import opened LineFile
  import R = RevocationJournal
  import opened GrantVerifier
  import opened VerifierRuns

  // ---- In force at once, and for good -------------------------------------------

  /** A revocation is retained until two seconds past the grant's expiry. */
  predicate Retains(e: Event, expiry: Id -> nat) {
    e.Revokes? ==> e.until >= expiry(e.id) + ROLLBACK_TOLERANCE_MS
  }

  /** The grant is not held, and is either tombstoned for long enough or so old
      that no acceptable signed time makes it fresh. */
  predicate Barred(v: Verifier, id: Id, expiresAt: nat) {
    && id !in v.accepted
    && ((id in v.revocations.marks.retained
         && v.revocations.marks.retained[id] >= expiresAt + ROLLBACK_TOLERANCE_MS)
        || (v.highest.Some? && v.highest.value >= expiresAt + ROLLBACK_TOLERANCE_MS))
  }

  predicate RevokedOk(w: World, expiry: Id -> nat) {
    w.process.Some? ==> forall id | id in w.revoked :: Barred(w.process.value, id, expiry(id))
  }

  lemma ReplyKeepsRevoked(w: World, e: Event, expiry: Id -> nat)
    requires RevokedOk(w, expiry) && Enabled(w, e) && e.Replies?
    ensures RevokedOk(Step(w, e), expiry)
  {
    ReplyMemory(w, e);
    assert Step(w, e).revoked == w.revoked;
  }

  lemma DeliverKeepsRevoked(w: World, e: Event, expiry: Id -> nat)
    requires RevokedOk(w, expiry) && MemoryOk(w, expiry) && Enabled(w, e) && Genuine(e, expiry) && e.Delivers?
    ensures RevokedOk(Step(w, e), expiry)
  {
    OtherMemory(w, e);
    AcceptFacts(w, e);
    assert Step(w, e).revoked == w.revoked;
  }

  lemma RevokeKeepsRevoked(w: World, e: Event, expiry: Id -> nat)
    requires RevokedOk(w, expiry) && Enabled(w, e) && Retains(e, expiry) && e.Revokes?
    ensures RevokedOk(Step(w, e), expiry)
  {
    OtherMemory(w, e);
    RevokeInForce(w, e);
    assert Step(w, e).revoked == w.revoked + {e.id};
  }

  lemma StepKeepsRevoked(w: World, e: Event, expiry: Id -> nat)
    requires RevokedOk(w, expiry) && MemoryOk(w, expiry)
    requires Enabled(w, e) && Genuine(e, expiry) && Retains(e, expiry)
    ensures RevokedOk(Step(w, e), expiry)
  {
    if e.Replies? {
      ReplyKeepsRevoked(w, e, expiry);
    } else if e.Delivers? {
      DeliverKeepsRevoked(w, e, expiry);
    } else if e.Revokes? {
      RevokeKeepsRevoked(w, e, expiry);
    } else if w.process.Some? && !e.Crashes? {
      OtherMemory(w, e);
      assert Step(w, e).revoked == w.revoked;
    }
  }

  lemma {:induction false} RunRevoked(ws: seq<World>, es: seq<Event>, expiry: Id -> nat, i: nat)
    requires IsRun(ws, es, expiry) && i < |ws| && forall k | 0 <= k < |es| :: Retains(es[k], expiry)
    ensures RevokedOk(ws[i], expiry) && MemoryOk(ws[i], expiry)
  {
    if i > 0 {
      RunRevoked(ws, es, expiry, i - 1);
      StepKeepsRevoked(ws[i - 1], es[i - 1], expiry);
      StepKeepsMemory(ws[i - 1], es[i - 1], expiry);
    }
  }

  lemma {:induction false} RevokedStays(ws: seq<World>, es: seq<Event>, expiry: Id -> nat, i: nat, j: nat)
    requires IsRun(ws, es, expiry) && i <= j < |ws|
    requires forall k | i <= k < j :: !es[k].Starts? && !es[k].Crashes?
    ensures ws[i].revoked <= ws[j].revoked
  {
    if i < j {
      RevokedStays(ws, es, expiry, i, j - 1);
    }
  }

  /** After `revoke` has run, whatever it returned, no later consumption of that
      grant succeeds in the same process. */
  lemma RevokedNeverConsumed(ws: seq<World>, es: seq<Event>, expiry: Id -> nat, i: nat, j: nat)
    requires IsRun(ws, es, expiry) && i < j < |es| && es[i].Revokes?
    requires forall k | 0 <= k < |es| :: Retains(es[k], expiry)
    requires forall k | i <= k <= j :: !es[k].Starts? && !es[k].Crashes?
    ensures HandsOut(ws[j], es[j]) ==> es[j].id != es[i].id
    ensures ws[j].process.Some? ==> es[i].id !in ws[j].process.value.accepted
  {
    RunRevoked(ws, es, expiry, j);
    RevokedStays(ws, es, expiry, i + 1, j);
    assert es[i].id in ws[i + 1].revoked;
  }

  // ---- File and memory over runs --------------------------------------------------

  /** Reading the file now agrees with memory outside `unpersisted`. */
  predicate FileAgrees(w: World) { w.process.Some? ==> R.InStep(w.d.revoked, w.process.value.revocations) }

  /** And the file ends on a record boundary. */
  predicate MarksOk(w: World) { FileAgrees(w) && (w.process.Some? ==> Boundary(w.d.revoked)) }

  /** The tombstone a revocation asks for. */
  function TombstoneFor(v: Verifier, e: Event): Tombstone
    requires e.Revokes?
  {
    Tombstone(e.id, e.until, Some(Observation(RevocationOutcome(v, e.id), e.observedAt)))
  }

  /** A failed revocation write leaves part of its line in the file. */
  ghost predicate Tears(w: World, e: Event)
    requires Enabled(w, e)
  {
    match e
    case Revokes(id, _, _, io) =>
      var r, t := w.process.value.revocations, TombstoneFor(w.process.value, e);
      R.RecordWrites(r, t) && R.LeavesResidue(w.d.revoked, R.InForce(r, t), id, io)
    case Retries(order, ios) => R.RetryTears(w.d.revoked, w.process.value.revocations, order, ios)
    case _ => false
  }

  /** A whole line is written behind such a residue, or a compaction is reported
      as failed after it removed a written tombstone. */
  ghost predicate Spoils(w: World, e: Event)
    requires Enabled(w, e)
  {
    match e
    case Revokes(id, _, _, io) =>
      var r, t := w.process.value.revocations, TombstoneFor(w.process.value, e);
      R.RecordWrites(r, t) && R.Merges(w.d.revoked, R.InForce(r, t), id, io)
    case Retries(order, ios) => R.RetryMerges(w.d.revoked, w.process.value.revocations, order, ios)
    case Replies(r, _, _, _, io) =>
      Sweeps(w, e) && R.HalfCompacted(w.process.value.revocations, r.controllerTime, io.revoke)
    case _ => false
  }

  /** Signed revocations carry valid ids and times. */
  predicate WellFormed(e: Event) {
    e.Revokes? ==> ValidTombstone(Tombstone(e.id, e.until, Some(Observation(NotReceived, e.observedAt))))
  }

  /** What a step does to file and memory, apart from how it is computed. */
  ghost predicate FileStep(w: World, e: Event)
    requires Enabled(w, e)
  {
    && (FileAgrees(Step(w, e)) <==> !Spoils(w, e))
    && (w.process.Some? && Step(w, e).process.Some? && Boundary(w.d.revoked) ==>
          (Boundary(Step(w, e).d.revoked) <==> !Tears(w, e)))
  }

  lemma ReplyFile(w: World, e: Event)
    requires FileAgrees(w) && JournalOk(w) && Enabled(w, e) && e.Replies?
    ensures FileStep(w, e)
  {
    hide JournalOk, Sweeps, Step, Enabled, R.Prune, R.InStep, R.HalfCompacted;
    InProcess(w, e);
    ReplySweepsExactly(w, e);
    var v := w.process.value;
    if Sweeps(w, e) {
      R.PruneInStepExactly(w.d.revoked, v.revocations, e.r.controllerTime, e.io.revokeOrder, e.io.revoke);
    }
  }

  lemma InProcess(w: World, e: Event)
    requires Enabled(w, e) && (e.Replies? || e.Revokes? || e.Retries?)
    ensures w.process.Some?
  {
  }

  lemma RevokeFile(w: World, e: Event)
    requires FileAgrees(w) && Enabled(w, e) && e.Revokes? && WellFormed(e)
    ensures FileStep(w, e)
  {
    hide R.Record, R.InStep, R.Merges, R.LeavesResidue, R.RecordWrites, R.InForce;
    var v := w.process.value;
    if e.id in v.accepted { DropAllFacts(v, [e.id], Revoked); }
    R.RecordExactly(w.d.revoked, v.revocations, TombstoneFor(v, e), e.revokeIo);
  }

  lemma RetryFile(w: World, e: Event)
    requires FileAgrees(w) && Enabled(w, e) && e.Retries?
    ensures FileStep(w, e)
  {
    hide R.Retry, R.InStep, R.RetryMerges, R.RetryTears;
    R.RetryExactly(w.d.revoked, w.process.value.revocations, e.order, e.ios);
  }

  lemma OtherFile(w: World, e: Event)
    requires FileAgrees(w) && Enabled(w, e) && !e.Replies? && !e.Revokes? && !e.Retries?
    ensures FileStep(w, e) && (MarksOk(w) ==> MarksOk(Step(w, e)))
  {
    hide R.InStep;
    match e {
      case Starts(_, _) => if R.Reopen(w.d.revoked).Some? { R.OpenInStep(w.d.revoked); }
      case Withdraws(x, order) => DropAllFacts(w.process.value, order, DenialOf(x));
      case _ =>
    }
  }

  /** File and memory keep agreeing if and only if no line is written behind a
      residue and no compaction is reported as failed after it removed a written
      tombstone. */
  lemma StepKeepsAgreementExactly(w: World, e: Event)
    requires FileAgrees(w) && JournalOk(w) && Enabled(w, e) && WellFormed(e)
    ensures FileAgrees(Step(w, e)) <==> !Spoils(w, e)
  {
    FileStepHolds(w, e);
  }

  lemma FileStepHolds(w: World, e: Event)
    requires FileAgrees(w) && JournalOk(w) && Enabled(w, e) && WellFormed(e)
    ensures FileStep(w, e)
  {
    hide FileAgrees, FileStep, Step, Enabled, JournalOk;
    if e.Replies? {
      ReplyFile(w, e);
    } else if e.Revokes? {
      RevokeFile(w, e);
    } else if e.Retries? {
      RetryFile(w, e);
    } else {
      OtherFile(w, e);
    }
  }

  /** From a file that agrees and ends on a boundary, both stay so if and only if
      the step leaves no residue and reports no done compaction as failed. */
  lemma StepKeepsMarksExactly(w: World, e: Event)
    requires MarksOk(w) && JournalOk(w) && Enabled(w, e) && WellFormed(e)
    ensures MarksOk(Step(w, e)) <==> !Tears(w, e) && !Spoils(w, e)
  {
    hide JournalOk, R.InStep, Sweeps, R.HalfCompacted;
    FileStepHolds(w, e);
    if !e.Replies? && !e.Revokes? && !e.Retries? {
      OtherFile(w, e);
    } else {
      InProcess(w, e);
      StaysInProcess(w, e);
    }
  }

  lemma StaysInProcess(w: World, e: Event)
    requires Enabled(w, e) && (e.Replies? || e.Revokes? || e.Retries?)
    ensures Step(w, e).process.Some?
  {
  }

  /** A run in which no process goes on after it spoiled the file. */
  ghost predicate EndsSpoiled(ws: seq<World>, es: seq<Event>, expiry: Id -> nat)
    requires IsRun(ws, es, expiry)
  {
    forall i | 0 <= i && i + 1 < |es| && Spoils(ws[i], es[i]) :: es[i + 1].Crashes?
  }

  lemma {:induction false} RunAgrees(ws: seq<World>, es: seq<Event>, expiry: Id -> nat, i: nat)
    requires IsRun(ws, es, expiry) && EndsSpoiled(ws, es, expiry) && i < |ws|
    requires forall k | 0 <= k < |es| :: WellFormed(es[k])
    requires i > 0 ==> !Spoils(ws[i - 1], es[i - 1])
    ensures FileAgrees(ws[i])
  {
    if i > 0 {
      if es[i - 1].Crashes? {
        assert ws[i].process.None?;
      } else {
        hide Step, Enabled, Spoils, FileAgrees, WellFormed;
        RunAgrees(ws, es, expiry, i - 1);
        RunJournal(ws, es, expiry, i - 1);
        StepKeepsAgreementExactly(ws[i - 1], es[i - 1]);
      }
    }
  }

  /** Durable where claimed: over every run of crashes, restarts, failed and torn
      writes, retries and compactions in which no process goes on after it
      spoiled the file, for each grant outside `unpersisted` reading the file
      gives exactly memory's retention and first outcome. */
  lemma ReopenGivesMemory(ws: seq<World>, es: seq<Event>, expiry: Id -> nat, i: nat, id: Id)
    requires IsRun(ws, es, expiry) && EndsSpoiled(ws, es, expiry) && i < |ws|
    requires forall k | 0 <= k < |es| :: WellFormed(es[k])
    requires i > 0 ==> !Spoils(ws[i - 1], es[i - 1])
    requires ws[i].process.Some? && id !in ws[i].process.value.revocations.unpersisted
    ensures R.ReadMarks(ws[i].d.revoked).Some?
    ensures var m, r := R.ReadMarks(ws[i].d.revoked).value, ws[i].process.value.revocations;
            && (id in m.retained <==> id in r.marks.retained)
            && (id in m.retained ==>
                  m.retained[id] == r.marks.retained[id]
                  && R.ObservationOf(m, id) == R.ObservationOf(r.marks, id))
  {
    RunAgrees(ws, es, expiry, i);
  }
}
