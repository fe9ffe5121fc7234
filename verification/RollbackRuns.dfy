/** An earlier copy of the journal file put back under a running verifier: over
    every verifier-driven run it is accepted exactly when it lacks nothing the
    verifier has seen. */
module RollbackRuns {
  import opened Text
  import opened JournalLine
  import opened JournalFile
  import G = GrantJournal
  import J = JournalRuns
  import R = RevocationJournal
  import opened GrantVerifier
  import opened VerifierRuns
  import P = PrunedBoundary

  // ---- The file ------------------------------------------------------------------------

  /** Every step of the verifier is one change of the ledger. */
  lemma StepMoves(w: World, e: Event) returns (x: J.Change)
    requires JournalOk(w) && Enabled(w, e)
    ensures J.Moved(w.d.disk, Step(w, e).d.disk, x) && !x.Founded?
  {
    hide J.Good, G.Prune, G.Record, G.Bind, J.Current;
    x := J.Same;
    match e {
      case Starts(_, _) => J.OpenReads(w.d.disk);
      case Replies(r, _, _, _, io) =>
        if Marks(w, e) {
          J.PruneStep(w.d.disk, w.process.value.journal, r.controllerTime, io.pruneOrder, io.prune);
          ReplyJournal(w, e);
          if !J.Moved(w.d.disk, Step(w, e).d.disk, J.Same) { x := J.Removed(r.controllerTime); }
        }
      case Consumes(id, a, version, boot, io) =>
        var v := w.process.value;
        if Validate(v, id, a, version, boot).None? {
          var g := v.accepted[id].grant;
          J.RecordStep(w.d.disk, v.journal, Intent(g), g.nodeId, io);
          if !J.Moved(w.d.disk, Step(w, e).d.disk, J.Same) { x := J.Added(Intent(g)); }
        }
      case Binds(p, order, io) =>
        J.BindStep(w.d.disk, p, order, io);
        if !J.Moved(w.d.disk, Step(w, e).d.disk, J.Same) { x := J.Rebound(p); }
      case _ =>
    }
  }

  /** Later states of the file descend from earlier ones. */
  lemma {:induction false} RunDescends(ws: seq<World>, es: seq<Event>, expiry: Id -> nat, i: nat, j: nat)
    requires IsRun(ws, es, expiry) && i <= j < |ws|
    ensures J.Descends(J.Current(ws[i].d.disk), J.Current(ws[j].d.disk))
    decreases j
  {
    hide Step, Enabled, JournalOk, J.Current;
    if i < j {
      RunDescends(ws, es, expiry, i, j - 1);
      RunJournal(ws, es, expiry, j - 1);
      var x := StepMoves(ws[j - 1], es[j - 1]);
      J.DescendsApply(J.Current(ws[i].d.disk), J.Current(ws[j - 1].d.disk), x);
    }
  }

  // ---- The memory ------------------------------------------------------------------------

  predicate Sees(w: World, l: Loaded) { w.process.Some? && w.process.value.journal.state == l }

  lemma ReplySees(w: World, e: Event)
    requires JournalOk(w) && Enabled(w, e) && e.Replies?
    ensures var x := Step(w, e);
            || Sees(x, w.process.value.journal.state) || Sees(x, J.Current(w.d.disk)) || Sees(x, J.Current(x.d.disk))
  {
    hide J.Good, G.Prune, R.Prune, J.Current;
    if Marks(w, e) {
      J.PruneSees(w.d.disk, w.process.value.journal, e.r.controllerTime, e.io.pruneOrder, e.io.prune);
      ReplyJournal(w, e);
      StaysUp(w, e);
    }
  }

  lemma StaysUp(w: World, e: Event)
    requires Enabled(w, e) && e.Replies?
    ensures Step(w, e).process.Some?
  {
  }

  lemma ConsumeSees(w: World, e: Event)
    requires JournalOk(w) && Enabled(w, e) && e.Consumes?
    ensures var x := Step(w, e);
            || Sees(x, w.process.value.journal.state) || Sees(x, J.Current(w.d.disk)) || Sees(x, J.Current(x.d.disk))
  {
    hide J.Good, G.Record, J.Current;
    var v := w.process.value;
    if Validate(v, e.id, e.a, e.policyVersion, e.boot).None? {
      var g := v.accepted[e.id].grant;
      J.RecordSees(w.d.disk, v.journal, Intent(g), g.nodeId, e.appendIo);
    }
  }

  /** No other step touches the journal in memory; a start reads the file. */
  lemma OtherSees(w: World, e: Event)
    requires JournalOk(w) && Enabled(w, e) && !e.Replies? && !e.Consumes? && Step(w, e).process.Some?
    ensures if e.Starts? then Sees(Step(w, e), J.Current(Step(w, e).d.disk))
            else w.process.Some? && Sees(Step(w, e), w.process.value.journal.state)
  {
    hide J.Good, J.Current;
    match e {
      case Starts(_, _) => J.OpenReads(w.d.disk);
      case Withdraws(x, order) => DropAllFacts(w.process.value, order, DenialOf(x));
      case Revokes(id, _, _, _) =>
        if id in w.process.value.accepted { DropAllFacts(w.process.value, [id], Revoked); }
      case Delivers(g, digest, nodeId, keyId, p, reg, boot) =>
        AcceptGrantFacts(w.process.value, g, digest, nodeId, keyId, p, reg, boot);
      case _ =>
    }
  }

  /** What the process holds is some state the file had. */
  lemma {:induction false} MemoryWasFile(ws: seq<World>, es: seq<Event>, expiry: Id -> nat, m: nat) returns (k: nat)
    requires IsRun(ws, es, expiry) && m < |ws| && ws[m].process.Some?
    ensures k <= m && Sees(ws[m], J.Current(ws[k].d.disk))
  {
    hide Step, Enabled, JournalOk, J.Current;
    var w, e := ws[m - 1], es[m - 1];
    RunJournal(ws, es, expiry, m - 1);
    if e.Starts? {
      OtherSees(w, e);
      return m;
    }
    WasUp(w, e);
    k := MemoryWasFile(ws, es, expiry, m - 1);
    if e.Replies? {
      ReplySees(w, e);
    } else if e.Consumes? {
      ConsumeSees(w, e);
    } else {
      OtherSees(w, e);
    }
    if !Sees(ws[m], J.Current(ws[k].d.disk)) {
      k := if Sees(ws[m], J.Current(w.d.disk)) then m - 1 else m;
    }
  }

  lemma WasUp(w: World, e: Event)
    requires Enabled(w, e) && !e.Starts? && Step(w, e).process.Some?
    ensures w.process.Some?
  {
  }

  // ---- The refusal ----------------------------------------------------------------------------

  /** The copy has the boundary, the scope and every record that was seen. */
  predicate LacksNothing(seen: Loaded, copy: Loaded)
    requires seen.history.Some? && copy.history.Some?
  {
    && copy.history.value.prunedThrough == seen.history.value.prunedThrough
    && (seen.history.value.IsBound() ==> copy.history.value.SameScope(seen.history.value))
    && forall id | id in seen.consumed :: id in copy.consumed && copy.consumed[id] == seen.consumed[id]
  }

  /** Over every run in which no process goes on after a reply that overtook its
      time: put back under the process at `m`, which last saw the file as it was
      at `k`, a copy from `i` is accepted when it is not older than `k`, and an
      older one if and only if it lacks nothing that was seen. */
  lemma RollbackExact(ws: seq<World>, es: seq<Event>, expiry: Id -> nat, i: nat, m: nat, version: nat)
    returns (k: nat)
    requires IsRun(ws, es, expiry) && P.EndsOvertaken(ws, es, expiry) && P.BoundaryOk(ws[0])
    requires i <= m < |ws| && ws[m].process.Some? && ws[m].process.value.journal.revision != Some(version)
    requires ws[i].d.disk.file.Some? && J.Current(ws[i].d.disk).history.Some?
    requires ws[m].process.value.journal.state.history.Some?
    ensures k <= m && Sees(ws[m], J.Current(ws[k].d.disk))
    ensures var j := ws[m].process.value.journal;
            var accepted := G.Synchronize(G.Disk(ws[i].d.disk.file, version), j).2;
            && (k <= i ==> accepted)
            && (i <= k ==> (accepted <==> LacksNothing(j.state, J.Current(ws[i].d.disk))))
  {
    k := MemoryWasFile(ws, es, expiry, m);
    var seen, copy := ws[m].process.value.journal.state, J.Current(ws[i].d.disk);
    RunJournal(ws, es, expiry, i);
    assert Load(ws[i].d.disk.file.value) == Some(copy);
    P.RecordsAbovePruned(ws, es, expiry, k);
    hide IsRun, Step, Enabled, JournalOk, J.Current, P.BoundaryOk, P.EndsOvertaken, Load;
    if i <= k {
      RunDescends(ws, es, expiry, i, k);
      J.ContinuesExact(seen, copy);
    }
    if k <= i {
      RunDescends(ws, es, expiry, k, i);
    }
  }
}
