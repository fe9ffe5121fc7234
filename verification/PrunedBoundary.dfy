/** The pruned boundary of the journal under a verifier and arbitrary signed
    times: every retained record expires after everything already pruned, so
    the rollback refusal of `JournalRuns` is exact. */
module PrunedBoundary {
  import opened Text
  import opened JournalLine
  import opened JournalFile
  import G = GrantJournal
  import J = JournalRuns
  import opened GrantVerifier
  import opened VerifierRuns

  /** No reply accepted against this time can make a grant at or below the
      boundary acceptable. */
  predicate Behind(l: Loaded, time: Option<nat>) {
    l.history.Some? && l.history.value.prunedThrough > 0 ==>
      time.Some? && l.history.value.prunedThrough + ROLLBACK_TOLERANCE_MS <= time.value
  }

  predicate BoundaryOk(w: World) {
    var l := J.Current(w.d.disk);
    J.AbovePruned(l) && Behind(l, w.d.mark) && (w.process.Some? ==> Behind(l, w.process.value.highest))
  }

  /** Memory's own time has not closed any accepted grant. */
  predicate AcceptedOpen(w: World, expiry: Id -> nat) {
    w.process.Some? ==>
      forall id | id in w.process.value.accepted ::
        && expiry(id) > 0
        && (w.process.value.highest.Some? ==> w.process.value.highest.value < expiry(id) + ROLLBACK_TOLERANCE_MS)
  }

  predicate Inv(w: World, expiry: Id -> nat) {
    JournalOk(w) && MemoryOk(w, expiry) && BoundaryOk(w) && AcceptedOpen(w, expiry)
  }

  // ---- Replies ---------------------------------------------------------------------

  /** Some record due at `t` is not behind this time. */
  predicate DueAhead(l: Loaded, t: nat, time: Option<nat>) {
    exists id :: id in l.consumed && !G.Retained(l.consumed[id], t)
                 && (time.None? || time.value < l.consumed[id] + ROLLBACK_TOLERANCE_MS)
  }

  /** The reply replaces the journal file but a later write fails, and a record
      that is due is one memory's own time has not closed. */
  ghost predicate Overtakes(w: World, e: Event)
    requires Enabled(w, e)
  {
    && Prunes(w, e) && !Completes(w, e) && J.Current(w.d.disk).history.Some?
    && DueAhead(J.Current(w.d.disk), e.r.controllerTime, w.process.value.highest)
  }

  /** The boundary rises to the largest expiry removed. */
  lemma RaisedBoundary(l: Loaded, t: nat)
    requires l.history.Some?
    ensures var p, p' := l.history.value.prunedThrough, G.Pruned(l, t).history.value.prunedThrough;
            && p' >= p && (forall id | id in l.consumed && !G.Retained(l.consumed[id], t) :: l.consumed[id] <= p')
            && (p' == p || exists id :: id in l.consumed && !G.Retained(l.consumed[id], t) && l.consumed[id] == p')
  {
    var gone := l.consumed.Keys - G.KeptIds(l, t);
    assert forall id | id in l.consumed :: id in gone <==> !G.Retained(l.consumed[id], t);
  }

  /** A prune leaves the boundary behind a time exactly when every record it
      removes is. */
  lemma PrunedBehind(l: Loaded, t: nat, time: Option<nat>)
    requires Behind(l, time) && l.history.Some? && forall id | id in l.consumed :: l.consumed[id] > 0
    ensures Behind(G.Pruned(l, t), time)
      <==> forall id | id in l.consumed && !G.Retained(l.consumed[id], t) ::
             time.Some? && l.consumed[id] + ROLLBACK_TOLERANCE_MS <= time.value
  {
    RaisedBoundary(l, t);
  }

  lemma BehindRises(l: Loaded, time: Option<nat>, later: Option<nat>)
    requires Behind(l, time) && (time.Some? ==> later.Some? && time.value <= later.value)
    ensures Behind(l, later)
  {
  }

  lemma CurrentPositive(d: G.Disk)
    requires J.DiskOk(d)
    ensures forall id | id in J.Current(d).consumed :: J.Current(d).consumed[id] > 0
  {
    if d.file.Some? {
      LoadConsistent(d.file.value);
      assert forall id | id in J.Current(d).consumed :: ValidConsumption(Entry(J.Current(d), id));
    }
  }

  /** What a reply does to the boundary, the mark and the high-water mark. */
  lemma ReplyTimes(w: World, e: Event)
    requires JournalOk(w) && Enabled(w, e) && e.Replies?
    ensures var raised := Some(Raised(w.process.value.highest, e.r.controllerTime));
            var x := Step(w, e);
            && w.process.Some? && x.process.Some?
            && (Completes(w, e) ==> x.process.value.highest == raised)
            && (!Completes(w, e) ==> x.process.value.highest == w.process.value.highest)
            && (x.d.mark == w.d.mark || x.d.mark == raised) && (Prunes(w, e) ==> x.d.mark == raised)
  {
    hide J.PruneWrites, J.RecordDue, J.Current, G.Prune;
    ReplyCompletesExactly(w, e);
    ReplyMemory(w, e);
  }

  /** Everything a prune removes is long behind its own signed time. */
  lemma DueIsBehind(l: Loaded, t: nat, time: Option<nat>)
    requires time.Some? && time.value >= t
    ensures forall id | id in l.consumed && !G.Retained(l.consumed[id], t) ::
              l.consumed[id] + ROLLBACK_TOLERANCE_MS <= time.value
  {
  }

  /** What a reply at `t` does to the boundary, apart from how it is computed. */
  lemma BoundaryAcross(
    l: Loaded, l': Loaded, mark: Option<nat>, mark': Option<nat>, highest: Option<nat>, highest': Option<nat>,
    t: nat, prunes: bool, completes: bool)
    requires J.AbovePruned(l) && Behind(l, mark) && Behind(l, highest)
    requires forall id | id in l.consumed :: l.consumed[id] > 0
    requires l' == if prunes then G.Pruned(l, t) else l
    requires highest' == if completes then Some(Raised(highest, t)) else highest
    requires mark' == Some(Raised(highest, t)) || (mark' == mark && !prunes)
    ensures J.AbovePruned(l') && Behind(l', mark')
    ensures Behind(l', highest') <==> !(prunes && !completes && l.history.Some? && DueAhead(l, t, highest))
  {
    hide G.Pruned, J.AbovePruned;
    var raised := Some(Raised(highest, t));
    BehindRises(l, highest, raised);
    if prunes {
      J.AbovePrunedApply(l, J.Removed(t));
      if l.history.Some? {
        DueIsBehind(l, t, raised);
        PrunedBehind(l, t, raised);
        PrunedBehind(l, t, highest);
      } else {
        NoBoundary(l, t);
      }
    }
  }

  /** The boundary afterwards is behind the new mark, and behind memory's time
      exactly when the reply does not overtake it. */
  lemma ReplyBoundary(w: World, e: Event)
    requires JournalOk(w) && BoundaryOk(w) && Enabled(w, e) && e.Replies?
    ensures var l, x := J.Current(Step(w, e).d.disk), Step(w, e);
            && J.AbovePruned(l) && Behind(l, x.d.mark) && x.process.Some?
            && (Behind(l, x.process.value.highest) <==> !Overtakes(w, e))
  {
    hide Step, Enabled, Completes, Prunes, J.Current, G.Pruned, J.AbovePruned, Behind, Raised, CheckReply, DueAhead;
    ReplyCompletesExactly(w, e);
    ReplyTimes(w, e);
    CurrentPositive(w.d.disk);
    var x := Step(w, e);
    BoundaryAcross(J.Current(w.d.disk), J.Current(x.d.disk), w.d.mark, x.d.mark, w.process.value.highest,
                   x.process.value.highest, e.r.controllerTime, Prunes(w, e), Completes(w, e));
  }

  lemma NoBoundary(l: Loaded, t: nat)
    requires l.history.None?
    ensures G.Pruned(l, t).history.None?
  {
  }

  lemma ReplyKeepsOpen(w: World, e: Event, expiry: Id -> nat)
    requires MemoryOk(w, expiry) && AcceptedOpen(w, expiry) && Enabled(w, e) && e.Replies?
    ensures AcceptedOpen(Step(w, e), expiry)
  {
    ReplyMemory(w, e);
    if CheckReply(w.process.value, e.r, e.nodeId, e.epoch, e.boot).Some? {
      CheckReplyFacts(w.process.value, e.r, e.nodeId, e.epoch, e.boot);
    }
  }

  // ---- Other events ------------------------------------------------------------------

  lemma DeliverKeepsOpen(w: World, e: Event, expiry: Id -> nat)
    requires MemoryOk(w, expiry) && AcceptedOpen(w, expiry) && Enabled(w, e) && Genuine(e, expiry) && e.Delivers?
    ensures AcceptedOpen(Step(w, e), expiry)
  {
    OtherMemory(w, e);
    AcceptFacts(w, e);
  }

  /** A consumed grant was still open, so it expires after the boundary. */
  lemma ConsumeBoundary(w: World, e: Event, expiry: Id -> nat)
    requires Inv(w, expiry) && Enabled(w, e) && e.Consumes?
    ensures BoundaryOk(Step(w, e))
  {
    OtherMemory(w, e);
    var v := w.process.value;
    if Validate(v, e.id, e.a, e.policyVersion, e.boot).None? {
      var g := v.accepted[e.id].grant;
      J.RecordStep(w.d.disk, v.journal, Intent(g), g.nodeId, e.appendIo);
      if !J.Moved(w.d.disk, Step(w, e).d.disk, J.Same) {
        J.AbovePrunedApply(J.Current(w.d.disk), J.Added(Intent(g)));
      }
    }
  }

  lemma OtherBoundary(w: World, e: Event)
    requires JournalOk(w) && BoundaryOk(w) && Enabled(w, e) && !e.Replies? && !e.Consumes?
    ensures BoundaryOk(Step(w, e))
  {
    hide J.AbovePruned;
    if e.Starts? {
      J.OpenReads(w.d.disk);
    } else if w.process.Some? && !e.Crashes? {
      OtherMemory(w, e);
    }
    if e.Binds? {
      J.BindStep(w.d.disk, e.pin, e.order, e.bindIo);
      if !J.Moved(w.d.disk, Step(w, e).d.disk, J.Same) {
        J.AbovePrunedApply(J.Current(w.d.disk), J.Rebound(e.pin));
      }
    }
  }

  lemma OtherKeepsOpen(w: World, e: Event, expiry: Id -> nat)
    requires AcceptedOpen(w, expiry) && Enabled(w, e) && !e.Replies? && !e.Delivers?
    ensures AcceptedOpen(Step(w, e), expiry)
  {
    if w.process.Some? && !e.Crashes? {
      OtherMemory(w, e);
    }
  }

  /** One step keeps the boundary below every grant that can still be recorded
      if and only if it is not a reply that overtakes memory's own time. */
  lemma StepKeepsBoundaryExactly(w: World, e: Event, expiry: Id -> nat)
    requires Inv(w, expiry) && Enabled(w, e) && Genuine(e, expiry)
    ensures J.AbovePruned(J.Current(Step(w, e).d.disk))
    ensures Inv(Step(w, e), expiry) <==> !Overtakes(w, e)
  {
    hide Enabled, Step, J.AbovePruned, Behind, MemoryOk, JournalOk, AcceptedOpen;
    StepKeepsMemory(w, e, expiry);
    StepKeepsJournal(w, e);
    if e.Replies? {
      ReplyBoundary(w, e);
      ReplyTimes(w, e);
      ReplyKeepsOpen(w, e, expiry);
    } else {
      NotReply(w, e);
      if e.Consumes? { ConsumeBoundary(w, e, expiry); } else { OtherBoundary(w, e); }
      if e.Delivers? { DeliverKeepsOpen(w, e, expiry); } else { OtherKeepsOpen(w, e, expiry); }
    }
  }

  lemma NotReply(w: World, e: Event)
    requires Enabled(w, e) && !e.Replies?
    ensures !Overtakes(w, e)
  {
  }

  /** A crash inside a reply keeps the boundary: the mark was written first. */
  lemma CrashInOvertaking(w: World, e: Event, expiry: Id -> nat)
    requires Inv(w, expiry) && Enabled(w, e) && e.Replies?
    ensures Enabled(Step(w, e), Crashes) && Inv(Step(Step(w, e), Crashes), expiry)
  {
    hide J.AbovePruned, Behind, J.Current, AcceptReply, CheckReply;
    StepKeepsJournal(w, e);
    ReplyBoundary(w, e);
    ReplyTimes(w, e);
    var y := Step(Step(w, e), Crashes);
    assert y.process.None? && y.d == Step(w, e).d;
  }

  // ---- Runs ------------------------------------------------------------------------------

  /** A reply that overtakes memory's time is the end of its process. */
  ghost predicate EndsOvertaken(ws: seq<World>, es: seq<Event>, expiry: Id -> nat)
    requires IsRun(ws, es, expiry)
  {
    forall i | 0 <= i && i + 1 < |es| && Overtakes(ws[i], es[i]) :: es[i + 1].Crashes?
  }

  lemma {:induction false} RunInv(ws: seq<World>, es: seq<Event>, expiry: Id -> nat, i: nat)
    requires IsRun(ws, es, expiry) && EndsOvertaken(ws, es, expiry) && BoundaryOk(ws[0]) && i < |ws|
    requires i > 0 ==> !Overtakes(ws[i - 1], es[i - 1])
    ensures Inv(ws[i], expiry)
  {
    hide Step, Enabled, Overtakes, BoundaryOk;
    if i > 1 && Overtakes(ws[i - 2], es[i - 2]) {
      hide Inv;
      assert es[i - 1].Crashes?;
      OvertakesReplies(ws[i - 2], es[i - 2]);
      RunInv(ws, es, expiry, i - 2);
      CrashInOvertaking(ws[i - 2], es[i - 2], expiry);
    } else if i > 0 {
      hide Inv;
      RunInv(ws, es, expiry, i - 1);
      StepKeepsBoundaryExactly(ws[i - 1], es[i - 1], expiry);
    }
  }

  lemma OvertakesReplies(w: World, e: Event)
    requires Enabled(w, e) && Overtakes(w, e)
    ensures e.Replies?
  {
  }

  /** Over every verifier-driven run with arbitrary signed times and every write
      failure, in which a process does not outlive such a reply, every retained
      record expires after the pruned boundary. */
  lemma RecordsAbovePruned(ws: seq<World>, es: seq<Event>, expiry: Id -> nat, i: nat)
    requires IsRun(ws, es, expiry) && EndsOvertaken(ws, es, expiry) && BoundaryOk(ws[0]) && i < |ws|
    ensures J.AbovePruned(J.Current(ws[i].d.disk))
  {
    if i > 0 && Overtakes(ws[i - 1], es[i - 1]) {
      hide Step, Enabled, BoundaryOk, J.AbovePruned;
      OvertakesReplies(ws[i - 1], es[i - 1]);
      RunInv(ws, es, expiry, i - 1);
      StepKeepsBoundaryExactly(ws[i - 1], es[i - 1], expiry);
    } else {
      RunInv(ws, es, expiry, i);
    }
  }
}
