/** Runs of the grant verifier over its durable files: process starts and
    crashes, time replies, deliveries, consumptions, revocations and every
    failed write. A grant is consumed at most once, and under an honest clock
    strictly before its signed expiry. */
module VerifierRuns {
  import opened Text
  import opened JournalLine
  import opened JournalFile
  import J = JournalRuns
  import G = GrantJournal
  import R = RevocationJournal
  import opened GrantVerifier

  /** `boot` is boottime now and `offset` controller time minus boottime.
      `spent` are the grants whose consumption has succeeded, `revoked` those
      this process was told to revoke, and `ceilings` the boottime at which the
      local ceiling of each grant accepted by this process ends. */
  datatype World = World(
    d: Durable, process: Option<Verifier>, boot: nat, offset: int,
    spent: set<Id>, revoked: set<Id>, ceilings: map<Id, nat>)

  datatype Event =
    | Starts(boot: nat, offset: int)
    | Crashes
    | Challenges(value: string, boot: nat)
    | Replies(r: Reply, nodeId: Id, epoch: nat, boot: nat, io: ReplyIo)
    | Delivers(g: Grant, digest: string, nodeId: Id, keyId: string, p: Policy, reg: Registration, boot: nat)
    | Consumes(id: Id, a: Authorization, policyVersion: nat, boot: nat, appendIo: G.AppendIo)
    | Revokes(id: Id, until: nat, observedAt: nat, revokeIo: R.AppendIo)
    | Retries(order: seq<Id>, ios: seq<R.AppendIo>)
    | Withdraws(x: Reason, order: seq<Id>)
    | Binds(pin: G.Pin, order: seq<Id>, bindIo: G.RewriteIo)

  /** One hour, and the ceilings of the grant, the policy and the registration. */
  function Limit(g: Grant, p: Policy, reg: Registration): nat {
    Min(3_600_000, 1_000 * Min(g.ceilingSeconds, Min(p.ceilingSeconds, reg.ceilingSeconds)))
  }

  function BootOf(w: World, e: Event): nat {
    match e
    case Starts(b, _) => b
    case Challenges(_, b) => b
    case Replies(_, _, _, b, _) => b
    case Delivers(_, _, _, _, _, _, b) => b
    case Consumes(_, _, _, b, _) => b
    case _ => w.boot
  }

  /** Boottime never runs backwards while the host is up; a restart may be a
      reboot, but controller time goes on. */
  ghost predicate Enabled(w: World, e: Event) {
    && (e.Starts? ==> w.process.None? && e.boot + e.offset >= w.boot + w.offset)
    && (!e.Starts? ==> BootOf(w, e) >= w.boot)
    && (!e.Starts? && !e.Binds? ==> w.process.Some?)
    && match e
       case Replies(r, nodeId, epoch, boot, io) =>
         var check := CheckReply(w.process.value, r, nodeId, epoch, boot);
         check.Some? ==> ReplyOrders(w.d, w.process.value, r, check.value, boot, io)
       case Retries(order, ios) => |ios| == |order| && Enumerates(order, w.process.value.revocations.unpersisted)
       case Withdraws(x, order) => Enumerates(order, HitIds(w.process.value, x))
       case Binds(p, order, _) =>
         && G.ValidPin(p)
         && (G.Open(w.d.disk).1.Some? ==> Enumerates(order, G.Open(w.d.disk).1.value.state.consumed.Keys))
       case _ => true
  }

  /** The consumption succeeded and the grant was handed out. */
  predicate HandsOut(w: World, e: Event) {
    && e.Consumes? && w.process.Some?
    && Consume(w.d, w.process.value, e.id, e.a, e.policyVersion, e.boot, e.appendIo).2
  }

  ghost function Step(w: World, e: Event): World
    requires Enabled(w, e)
  {
    var now := w.(boot := BootOf(w, e));
    match e
    case Starts(boot, offset) =>
      var (d, v) := Start(w.d);
      World(d, v, boot, offset, w.spent, {}, map[])
    case Crashes => now.(process := None, revoked := {}, ceilings := map[])
    case Challenges(value, boot) =>
      now.(process := Some(w.process.value.(pending := Some(Challenge(value, boot)))))
    case Replies(r, nodeId, epoch, boot, io) =>
      var (d, v, _) := AcceptReply(w.d, w.process.value, r, nodeId, epoch, boot, io);
      now.(d := d, process := Some(v))
    case Delivers(g, digest, nodeId, keyId, p, reg, boot) =>
      var (v, result) := AcceptGrant(w.process.value, g, digest, nodeId, keyId, p, reg, boot);
      now.(process := Some(v),
           ceilings := if result.Fresh? then w.ceilings[g.id := boot + Limit(g, p, reg)] else w.ceilings)
    case Consumes(id, a, version, boot, io) =>
      var (d, v, ok) := Consume(w.d, w.process.value, id, a, version, boot, io);
      now.(d := d, process := Some(v), spent := if ok then w.spent + {id} else w.spent)
    case Revokes(id, until, observedAt, io) =>
      var (d, v, _) := Revoke(w.d, w.process.value, id, until, observedAt, io);
      now.(d := d, process := Some(v), revoked := w.revoked + {id})
    case Retries(order, ios) =>
      var (d, v) := RetryRevocations(w.d, w.process.value, order, ios);
      now.(d := d, process := Some(v))
    case Withdraws(x, order) => now.(process := Some(Withdraw(w.process.value, x, order)))
    case Binds(p, order, io) => now.(d := w.d.(disk := G.Bind(w.d.disk, p, order, io).0))
  }

  // ---- Retirement facts ----------------------------------------------------------

  /** Retirement touches only `accepted` and the retirement record. */
  predicate OnlyDrops(v: Verifier, v': Verifier) {
    && v'.pending == v.pending && v'.trusted == v.trusted && v'.highest == v.highest
    && v'.epoch == v.epoch && v'.journal == v.journal && v'.revocations == v.revocations
    && v'.accepted.Keys <= v.accepted.Keys
    && forall id | id in v'.accepted :: v'.accepted[id] == v.accepted[id]
  }

  lemma {:induction false} DropAllFacts(v: Verifier, ids: seq<Id>, reason: Denial)
    ensures OnlyDrops(v, DropAll(v, ids, reason))
    ensures DropAll(v, ids, reason).accepted.Keys == v.accepted.Keys - Elements(ids)
    decreases |ids|
  {
    if ids != [] {
      DropAllFacts(Drop(v, ids[0], reason), ids[1..], reason);
      assert Elements(ids) == {ids[0]} + Elements(ids[1..]);
    }
  }

  // ---- What the journal does ---------------------------------------------------------

  function Ledger(w: World): map<Id, nat> { J.Current(w.d.disk).consumed }

  /** The journal file can be opened and the process only lags behind it. */
  predicate JournalOk(w: World) {
    J.DiskOk(w.d.disk) && (w.process.Some? ==> J.Good(w.d.disk, w.process.value.journal))
  }

  /** A reply changes the ledger only by a prune at its signed time. */
  lemma ReplyLedger(w: World, e: Event)
    requires JournalOk(w) && Enabled(w, e) && e.Replies?
    ensures JournalOk(Step(w, e))
    ensures forall id | id in Ledger(w) ::
              (id in Ledger(Step(w, e)) && Ledger(Step(w, e))[id] == Ledger(w)[id])
              || Ledger(w)[id] + G.RETENTION_MS <= e.r.controllerTime
    ensures forall id | id in Ledger(Step(w, e)) :: id in Ledger(w) && Ledger(w)[id] == Ledger(Step(w, e))[id]
    ensures Step(w, e).d.disk != w.d.disk ==>
              CheckReply(w.process.value, e.r, e.nodeId, e.epoch, e.boot).Some? && e.io.mark.MarkWritten?
  {
    hide J.Good, G.Prune, R.Prune, J.Current;
    var v := w.process.value;
    var check := CheckReply(v, e.r, e.nodeId, e.epoch, e.boot);
    if check.Some? && e.io.mark.MarkWritten? {
      J.PruneStep(w.d.disk, v.journal, e.r.controllerTime, e.io.pruneOrder, e.io.prune);
      var (disk, journal, _) := G.Prune(w.d.disk, v.journal, e.r.controllerTime, e.io.pruneOrder, e.io.prune);
      ReplyJournal(w, e);
      forall id | id in Ledger(w)
        ensures (id in Ledger(Step(w, e)) && Ledger(Step(w, e))[id] == Ledger(w)[id])
                || Ledger(w)[id] + G.RETENTION_MS <= e.r.controllerTime
      {
        if J.Moved(w.d.disk, disk, J.Same) {
          J.ChangeKeeps(J.Current(w.d.disk), J.Same, id);
        } else {
          J.ChangeKeeps(J.Current(w.d.disk), J.Removed(e.r.controllerTime), id);
        }
      }
    }
  }

  /** Where the journal and its file end up after a reply. */
  lemma ReplyJournal(w: World, e: Event)
    requires Enabled(w, e) && e.Replies?
    requires CheckReply(w.process.value, e.r, e.nodeId, e.epoch, e.boot).Some? && e.io.mark.MarkWritten?
    ensures var (disk, journal, _) :=
              G.Prune(w.d.disk, w.process.value.journal, e.r.controllerTime, e.io.pruneOrder, e.io.prune);
            Step(w, e).d.disk == disk && Step(w, e).process.value.journal == journal
  {
    var v := w.process.value;
    var estimated := CheckReply(v, e.r, e.nodeId, e.epoch, e.boot).value;
    var (_, journal, _) := G.Prune(w.d.disk, v.journal, e.r.controllerTime, e.io.pruneOrder, e.io.prune);
    var (_, revocations, _) :=
      R.Prune(w.d.revoked, v.revocations, e.r.controllerTime, e.io.revokeOrder, e.io.revoke);
    var v2 := v.(pending := None, journal := journal, revocations := revocations);
    DropAllFacts(v2, e.io.expiredOrder, Expired);
  }

  lemma ConsumeLedger(w: World, e: Event)
    requires JournalOk(w) && Enabled(w, e) && e.Consumes?
    ensures JournalOk(Step(w, e))
    ensures forall id | id in Ledger(w) :: id in Ledger(Step(w, e)) && Ledger(Step(w, e))[id] == Ledger(w)[id]
    ensures HandsOut(w, e) ==>
              var g := w.process.value.accepted[e.id].grant;
              g.id !in Ledger(w) && g.id in Ledger(Step(w, e)) && Ledger(Step(w, e))[g.id] == g.expiresAt
  {
    var v := w.process.value;
    if Validate(v, e.id, e.a, e.policyVersion, e.boot).None? {
      var g := v.accepted[e.id].grant;
      J.RecordStep(w.d.disk, v.journal, Intent(g), g.nodeId, e.appendIo);
    }
  }

  lemma OtherLedger(w: World, e: Event)
    requires JournalOk(w) && Enabled(w, e) && !e.Replies? && !e.Consumes?
    ensures JournalOk(Step(w, e)) && Ledger(Step(w, e)) == Ledger(w)
  {
    hide J.Good, J.Current;
    match e {
      case Starts(_, _) =>
        J.OpenReads(w.d.disk);
        J.SyncedGood(G.Open(w.d.disk).0, G.Open(w.d.disk).1.value);
      case Binds(p, order, io) =>
        J.BindStep(w.d.disk, p, order, io);
        var disk := G.Bind(w.d.disk, p, order, io).0;
        if w.process.Some? {
          if J.Moved(w.d.disk, disk, J.Same) {
            J.OtherStaysGood(w.d.disk, disk, J.Same, w.process.value.journal);
          } else {
            J.OtherStaysGood(w.d.disk, disk, J.Rebound(p), w.process.value.journal);
          }
        }
      case Withdraws(x, order) => DropAllFacts(w.process.value, order, DenialOf(x));
      case Revokes(id, _, _, _) =>
        if id in w.process.value.accepted { DropAllFacts(w.process.value, [id], Revoked); }
      case _ =>
    }
  }

  // ---- Memory ----------------------------------------------------------------------

  /** A grant's id fixes its signed expiry. */
  predicate Genuine(e: Event, expiry: Id -> nat) { e.Delivers? ==> e.g.expiresAt == expiry(e.g.id) }

  /** What every step keeps about the verifier's memory. */
  predicate MemoryOk(w: World, expiry: Id -> nat) {
    w.process.Some? ==>
      var v := w.process.value;
      && (forall id | id in v.accepted ::
            && v.accepted[id].grant.id == id && v.accepted[id].grant.expiresAt == expiry(id)
            && id !in v.revocations.marks.retained
            && id in w.ceilings && v.accepted[id].deadline <= w.ceilings[id])
      && (v.trusted.Some? ==>
            && v.highest.Some? && v.trusted.value.signed <= v.trusted.value.estimated
            && v.highest.value <= v.trusted.value.signed + ROLLBACK_TOLERANCE_MS)
  }

  lemma CheckReplyFacts(v: Verifier, r: Reply, nodeId: Id, epoch: nat, boot: nat)
    requires CheckReply(v, r, nodeId, epoch, boot).Some?
    ensures r.controllerTime <= CheckReply(v, r, nodeId, epoch, boot).value
    ensures v.highest.Some? ==> v.highest.value <= r.controllerTime + ROLLBACK_TOLERANCE_MS
    ensures Raised(v.highest, r.controllerTime) <= r.controllerTime + ROLLBACK_TOLERANCE_MS
  {
  }

  /** The memory a reply leaves: everything as before, or expired grants gone
      and the new time adopted. */
  lemma ReplyMemory(w: World, e: Event)
    requires Enabled(w, e) && e.Replies?
    ensures var v, v', t := w.process.value, Step(w, e).process.value, e.r.controllerTime;
            var check := CheckReply(v, e.r, e.nodeId, e.epoch, e.boot);
            if AcceptReply(w.d, v, e.r, e.nodeId, e.epoch, e.boot, e.io).2 then
              && check.Some?
              && v'.trusted == Some(TrustedTime(t, check.value, e.boot))
              && v'.highest == Some(Raised(v.highest, t)) == Step(w, e).d.mark
              && v'.accepted.Keys == v.accepted.Keys - ExpiredIds(v, check.value, e.boot)
              && (forall id | id in v'.accepted :: v'.accepted[id] == v.accepted[id])
              && (v'.revocations == v.revocations
                  || v'.revocations == R.Revocations(R.KeptMarks(v.revocations.marks, t), {}))
            else
              && v'.trusted == v.trusted && v'.highest == v.highest && v'.accepted == v.accepted
              && v'.revocations == v.revocations
              && (Step(w, e).d.mark == w.d.mark || Step(w, e).d.mark == Some(Raised(v.highest, t)))
    ensures Step(w, e).process.value.pending == None
  {
    var v := w.process.value;
    var check := CheckReply(v, e.r, e.nodeId, e.epoch, e.boot);
    if check.Some? && e.io.mark.MarkWritten? {
      var (_, journal, _) := G.Prune(w.d.disk, v.journal, e.r.controllerTime, e.io.pruneOrder, e.io.prune);
      var (_, revocations, _) :=
        R.Prune(w.d.revoked, v.revocations, e.r.controllerTime, e.io.revokeOrder, e.io.revoke);
      var v2 := v.(pending := None, journal := journal, revocations := revocations);
      DropAllFacts(v2, e.io.expiredOrder, Expired);
    }
  }

  /** The memory every other event leaves. */
  lemma OtherMemory(w: World, e: Event)
    requires Enabled(w, e) && w.process.Some? && !e.Replies? && !e.Starts? && !e.Crashes?
    ensures var v, v' := w.process.value, Step(w, e).process.value;
            && Step(w, e).process.Some?
            && v'.trusted == v.trusted && v'.highest == v.highest && Step(w, e).d.mark == w.d.mark
            && (!e.Revokes? ==> v'.revocations.marks == v.revocations.marks)
            && (!e.Delivers? ==> OnlyDrops(v.(pending := v'.pending, epoch := v'.epoch, journal := v'.journal,
                                              revocations := v'.revocations), v'))
            && (!e.Challenges? ==> v'.pending == v.pending)
  {
    match e {
      case Withdraws(x, order) => DropAllFacts(w.process.value, order, DenialOf(x));
      case Revokes(id, _, _, _) =>
        if id in w.process.value.accepted { DropAllFacts(w.process.value, [id], Revoked); }
      case Retries(order, ios) => R.RetryKeepsMarks(w.d.revoked, w.process.value.revocations, order, ios);
      case _ =>
    }
  }

  /** A tombstone is in force after `revoke`, whether or not it was written. */
  lemma RevokeInForce(w: World, e: Event)
    requires Enabled(w, e) && e.Revokes?
    ensures var marks := Step(w, e).process.value.revocations.marks;
            && e.id !in Step(w, e).process.value.accepted
            && e.id in marks.retained && marks.retained[e.id] >= e.until
            && (forall id | id in w.process.value.revocations.marks.retained ::
                  id in marks.retained && marks.retained[id] >= w.process.value.revocations.marks.retained[id])
            && (forall id | id in marks.retained :: id == e.id || id in w.process.value.revocations.marks.retained)
  {
    var v := w.process.value;
    if e.id in v.accepted { DropAllFacts(v, [e.id], Revoked); }
    var t := Tombstone(e.id, e.until, Some(Observation(RevocationOutcome(v, e.id), e.observedAt)));
    R.RecordInForce(w.d.revoked, v.revocations, t, e.revokeIo);
  }

  /** A newly accepted grant was unknown, is unexpired, and gets a deadline
      within its expiry and ceilings. */
  lemma AcceptFacts(w: World, e: Event)
    requires Enabled(w, e) && e.Delivers?
    ensures var v, v' := w.process.value, Step(w, e).process.value;
            v'.accepted == v.accepted
            || (&& e.g.id !in v.accepted && MissingDenial(v, e.g.id) == Unknown
                && TrustedNow(v, e.boot).Some? && TrustedNow(v, e.boot).value < e.g.expiresAt
                && v'.accepted.Keys == v.accepted.Keys + {e.g.id}
                && (forall id | id in v.accepted :: v'.accepted[id] == v.accepted[id])
                && v'.accepted[e.g.id].grant == e.g && TrustedNow(v, e.boot).value <= e.g.issuedAt + MAX_DOCUMENT_AGE_MS
                && v'.accepted[e.g.id].deadline <= e.boot + e.g.expiresAt - TrustedNow(v, e.boot).value
                && e.g.id in Step(w, e).ceilings && v'.accepted[e.g.id].deadline <= Step(w, e).ceilings[e.g.id])
    ensures forall id | id in w.ceilings && id != e.g.id :: id in Step(w, e).ceilings
              && Step(w, e).ceilings[id] == w.ceilings[id]
    ensures Step(w, e).process.value.accepted == w.process.value.accepted ==> Step(w, e).ceilings == w.ceilings
  {
    hide AcceptGrant, Bindings, Deadline, MissingDenial, TrustedNow;
    var v := w.process.value;
    AcceptGrantFacts(v, e.g, e.digest, e.nodeId, e.keyId, e.p, e.reg, e.boot);
    var now := TrustedNow(v, e.boot);
    if now.Some? && Deadline(e.g, e.p, e.reg, now.value, e.boot).Some? {
      DeadlineBounds(e.g, e.p, e.reg, now.value, e.boot);
    }
  }

  lemma ReplyKeepsMemory(w: World, e: Event, expiry: Id -> nat)
    requires MemoryOk(w, expiry) && Enabled(w, e) && e.Replies?
    ensures MemoryOk(Step(w, e), expiry)
  {
    ReplyMemory(w, e);
    if CheckReply(w.process.value, e.r, e.nodeId, e.epoch, e.boot).Some? {
      CheckReplyFacts(w.process.value, e.r, e.nodeId, e.epoch, e.boot);
    }
  }

  lemma DeliverKeepsMemory(w: World, e: Event, expiry: Id -> nat)
    requires MemoryOk(w, expiry) && Enabled(w, e) && Genuine(e, expiry) && e.Delivers?
    ensures MemoryOk(Step(w, e), expiry)
  {
    OtherMemory(w, e);
    AcceptFacts(w, e);
  }

  lemma RevokeKeepsMemory(w: World, e: Event, expiry: Id -> nat)
    requires MemoryOk(w, expiry) && Enabled(w, e) && e.Revokes?
    ensures MemoryOk(Step(w, e), expiry)
  {
    OtherMemory(w, e);
    RevokeInForce(w, e);
  }

  /** Every step keeps the memory invariant; accepted grants and tombstones
      stay disjoint. */
  lemma StepKeepsMemory(w: World, e: Event, expiry: Id -> nat)
    requires MemoryOk(w, expiry) && Enabled(w, e) && Genuine(e, expiry)
    ensures MemoryOk(Step(w, e), expiry)
  {
    if e.Replies? {
      ReplyKeepsMemory(w, e, expiry);
    } else if e.Delivers? {
      DeliverKeepsMemory(w, e, expiry);
    } else if e.Revokes? {
      RevokeKeepsMemory(w, e, expiry);
    } else if w.process.Some? && !e.Crashes? {
      OtherMemory(w, e);
      assert Step(w, e).ceilings == w.ceilings;
    }
  }

  // ---- At most once, whatever the signed times -------------------------------------------

  /** No future reply can make the grant acceptable again: the mark is at least
      the tolerance past its expiry, in memory and on disk. */
  predicate Closed(w: World, id: Id, expiresAt: nat) {
    && w.d.mark.Some? && w.d.mark.value >= expiresAt + ROLLBACK_TOLERANCE_MS
    && (w.process.Some? ==>
          && w.process.value.highest.Some?
          && w.process.value.highest.value >= expiresAt + ROLLBACK_TOLERANCE_MS
          && id !in w.process.value.accepted)
  }

  /** Every spent grant is still in the journal, or can never be accepted. */
  predicate SpentOk(w: World, expiry: Id -> nat) {
    forall id | id in w.spent :: (id in Ledger(w) && Ledger(w)[id] == expiry(id)) || Closed(w, id, expiry(id))
  }

  predicate Inv(w: World, expiry: Id -> nat) { JournalOk(w) && MemoryOk(w, expiry) && SpentOk(w, expiry) }

  /** Some tombstone's retention has ended at `t`. */
  predicate TombstoneDue(r: R.Revocations, t: nat) {
    exists id :: id in r.marks.retained && r.marks.retained[id] <= t
  }

  /** The reply passes every check and its mark is written. */
  ghost predicate Marks(w: World, e: Event)
    requires Enabled(w, e)
  {
    e.Replies? && CheckReply(w.process.value, e.r, e.nodeId, e.epoch, e.boot).Some? && e.io.mark.MarkWritten?
  }

  /** The reply gets as far as replacing the journal file. */
  ghost predicate Prunes(w: World, e: Event)
    requires Enabled(w, e)
  {
    Marks(w, e) && J.PruneWrites(J.Current(w.d.disk), e.r.controllerTime, e.io.prune)
  }

  /** The reply gets as far as the revocation file. */
  ghost predicate Sweeps(w: World, e: Event)
    requires Enabled(w, e)
  {
    && Marks(w, e)
    && (J.RecordDue(J.Current(w.d.disk), e.r.controllerTime) ==> Prunes(w, e) && e.io.prune.Committed?)
  }

  /** Every write the reply needs succeeds. */
  ghost predicate Completes(w: World, e: Event)
    requires Enabled(w, e)
  {
    && Sweeps(w, e)
    && (TombstoneDue(w.process.value.revocations, e.r.controllerTime) ==> e.io.revoke == R.Committed(true))
  }

  /** A reply is accepted exactly when every write it needs succeeds; accepted
      or not, it removes records exactly when it gets to replace the file. */
  lemma ReplyCompletesExactly(w: World, e: Event)
    requires JournalOk(w) && Enabled(w, e) && e.Replies?
    ensures AcceptReply(w.d, w.process.value, e.r, e.nodeId, e.epoch, e.boot, e.io).2 <==> Completes(w, e)
    ensures J.Current(Step(w, e).d.disk)
         == if Prunes(w, e) then G.Pruned(J.Current(w.d.disk), e.r.controllerTime) else J.Current(w.d.disk)
  {
    hide G.Prune, J.PruneWrites, J.RecordDue, J.Current, G.Pruned;
    var v, t := w.process.value, e.r.controllerTime;
    if Marks(w, e) {
      J.PruneExactly(w.d.disk, v.journal, t, e.io.pruneOrder, e.io.prune);
      ReplyJournal(w, e);
      SweepExactly(w.d.revoked, v.revocations, t, e.io.revokeOrder, e.io.revoke);
    }
  }

  /** The revocation file and memory a reply leaves. */
  lemma ReplySweepsExactly(w: World, e: Event)
    requires JournalOk(w) && Enabled(w, e) && e.Replies?
    ensures Step(w, e).process.Some?
    ensures var v, x := w.process.value, Step(w, e);
            if Sweeps(w, e) then
              && Enumerates(e.io.revokeOrder, R.KeptMarks(v.revocations.marks, e.r.controllerTime).retained.Keys)
              && var (file, m, _) :=
                   R.Prune(w.d.revoked, v.revocations, e.r.controllerTime, e.io.revokeOrder, e.io.revoke);
                 x.d.revoked == file && x.process.value.revocations == m
            else x.d.revoked == w.d.revoked && x.process.value.revocations == v.revocations
  {
    hide G.Prune, R.Prune, J.PruneWrites, J.RecordDue, J.Current;
    var v, t := w.process.value, e.r.controllerTime;
    if Marks(w, e) {
      J.PruneExactly(w.d.disk, v.journal, t, e.io.pruneOrder, e.io.prune);
      var (_, journal, _) := G.Prune(w.d.disk, v.journal, t, e.io.pruneOrder, e.io.prune);
      var (_, revocations, _) := R.Prune(w.d.revoked, v.revocations, t, e.io.revokeOrder, e.io.revoke);
      DropAllFacts(v.(pending := None, journal := journal, revocations := revocations), e.io.expiredOrder, Expired);
    }
  }

  lemma SweepExactly(file: string, r: R.Revocations, t: nat, order: seq<Id>, io: R.RewriteIo)
    requires Enumerates(order, R.KeptMarks(r.marks, t).retained.Keys)
    ensures R.Prune(file, r, t, order, io).2 <==> (TombstoneDue(r, t) ==> io == R.Committed(true))
  {
    var kept := R.KeptMarks(r.marks, t).retained.Keys;
    assert kept == r.marks.retained.Keys <==> !TombstoneDue(r, t) by {
      assert forall id | id in r.marks.retained :: id in kept <==> r.marks.retained[id] > t;
    }
  }

  /** Memory does not know this grant to be over. */
  predicate Unaware(v: Verifier, id: Id, expiresAt: nat) {
    id in v.accepted || v.highest.None? || v.highest.value < expiresAt + ROLLBACK_TOLERANCE_MS
  }

  /** The reply replaces the journal file but a later write fails, and a spent
      grant whose record is due is one that memory does not know to be over. */
  ghost predicate Broken(w: World, e: Event, expiry: Id -> nat)
    requires Enabled(w, e)
  {
    && Prunes(w, e) && !Completes(w, e)
    && exists id :: id in w.spent && id in Ledger(w) && !G.Retained(Ledger(w)[id], e.r.controllerTime)
                    && Unaware(w.process.value, id, expiry(id))
  }

  /** The same by what is left: a spent grant's record went without the new
      time being adopted. */
  ghost predicate Forgets(w: World, e: Event, expiry: Id -> nat)
    requires Enabled(w, e)
  {
    && e.Replies?
    && !AcceptReply(w.d, w.process.value, e.r, e.nodeId, e.epoch, e.boot, e.io).2
    && exists id :: id in w.spent && id in Ledger(w) && id !in Ledger(Step(w, e))
         && Unaware(w.process.value, id, expiry(id))
  }

  lemma BrokenForgets(w: World, e: Event, expiry: Id -> nat)
    requires JournalOk(w) && Enabled(w, e)
    ensures Broken(w, e, expiry) <==> Forgets(w, e, expiry)
  {
    if e.Replies? {
      hide Enabled, Step, Completes, Marks, JournalOk, AcceptReply, J.Current, J.PruneWrites;
      ReplyCompletesExactly(w, e);
    }
  }

  lemma ReplyMark(w: World, e: Event)
    requires Enabled(w, e) && e.Replies? && Step(w, e).d.disk != w.d.disk
    ensures Step(w, e).d.mark == Some(Raised(w.process.value.highest, e.r.controllerTime))
  {
  }

  /** The grant is over for a process with this mark and high-water. */
  predicate Over(mark: Option<nat>, highest: Option<nat>, held: bool, expiresAt: nat) {
    && mark.Some? && mark.value >= expiresAt + ROLLBACK_TOLERANCE_MS
    && highest.Some? && highest.value >= expiresAt + ROLLBACK_TOLERANCE_MS && !held
  }

  /** What one reply at signed time `t` does to one grant. */
  lemma OverAcrossReply(
    mark: Option<nat>, mark': Option<nat>, highest: Option<nat>, highest': Option<nat>,
    held: bool, held': bool, t: nat, expiresAt: nat, pruned: bool)
    requires mark' == mark || mark' == Some(Raised(highest, t))
    requires highest' == highest || highest' == Some(Raised(highest, t))
    requires held' ==> held
    requires Over(mark, highest, held, expiresAt)
             || (&& pruned && expiresAt + G.RETENTION_MS <= t && mark' == Some(Raised(highest, t)) && !held'
                 && (highest' == Some(Raised(highest, t))
                     || (highest.Some? && highest.value >= expiresAt + ROLLBACK_TOLERANCE_MS)))
    ensures Over(mark', highest', held', expiresAt)
  {
  }

  /** What a reply makes of the world, apart from how it is computed. */
  ghost predicate ReplyEffect(w: World, x: World, r: Reply, boot: nat, ok: bool, estimated: nat)
    requires w.process.Some? && x.process.Some?
  {
    var v, v', t := w.process.value, x.process.value, r.controllerTime;
    && x.spent == w.spent
    && (forall id | id in Ledger(w) ::
          (id in Ledger(x) && Ledger(x)[id] == Ledger(w)[id]) || Ledger(w)[id] + G.RETENTION_MS <= t)
    && (forall id | id in Ledger(x) :: id in Ledger(w) && Ledger(w)[id] == Ledger(x)[id])
    && (x.d.mark == w.d.mark || x.d.mark == Some(Raised(v.highest, t)))
    && (x.d.disk != w.d.disk ==> x.d.mark == Some(Raised(v.highest, t)))
    && (ok ==> && v'.highest == Some(Raised(v.highest, t)) && t <= estimated
               && v'.accepted.Keys == v.accepted.Keys - ExpiredIds(v, estimated, boot))
    && (!ok ==> v'.highest == v.highest && v'.accepted == v.accepted)
  }

  lemma ReplyEffects(w: World, e: Event) returns (ok: bool, estimated: nat)
    requires JournalOk(w) && Enabled(w, e) && e.Replies?
    ensures ok == AcceptReply(w.d, w.process.value, e.r, e.nodeId, e.epoch, e.boot, e.io).2
    ensures ReplyEffect(w, Step(w, e), e.r, e.boot, ok, estimated)
  {
    hide Ledger, JournalOk;
    ReplyLedger(w, e);
    ReplyMemory(w, e);
    var check := CheckReply(w.process.value, e.r, e.nodeId, e.epoch, e.boot);
    if check.Some? {
      CheckReplyFacts(w.process.value, e.r, e.nodeId, e.epoch, e.boot);
    }
    if Step(w, e).d.disk != w.d.disk {
      ReplyMark(w, e);
    }
    ok := AcceptReply(w.d, w.process.value, e.r, e.nodeId, e.epoch, e.boot, e.io).2;
    estimated := if check.Some? then check.value else 0;
  }

  lemma ReplyOneGrant(w: World, x: World, r: Reply, boot: nat, ok: bool, estimated: nat, expiry: Id -> nat, id: Id)
    requires Inv(w, expiry) && w.process.Some? && x.process.Some? && id in w.spent
    requires ReplyEffect(w, x, r, boot, ok, estimated)
    requires !ok && id in Ledger(w) && id !in Ledger(x) ==>
               && id !in w.process.value.accepted && w.process.value.highest.Some?
               && w.process.value.highest.value >= expiry(id) + ROLLBACK_TOLERANCE_MS
    requires !(id in Ledger(x) && Ledger(x)[id] == expiry(id))
    ensures Closed(x, id, expiry(id))
  {
    var v, v' := w.process.value, x.process.value;
    var inLedger := id in Ledger(w) && Ledger(w)[id] == expiry(id);
    assert inLedger ==> id !in Ledger(x) && x.d.disk != w.d.disk;
    assert inLedger && ok && id in v.accepted ==> id in ExpiredIds(v, estimated, boot);
    OverAcrossReply(w.d.mark, x.d.mark, v.highest, v'.highest, id in v.accepted, id in v'.accepted,
                    r.controllerTime, expiry(id), inLedger);
  }

  lemma ReplyKeepsSpent(w: World, e: Event, expiry: Id -> nat)
    requires Inv(w, expiry) && Enabled(w, e) && e.Replies? && !Forgets(w, e, expiry)
    ensures SpentOk(Step(w, e), expiry)
  {
    var ok, estimated := ReplyEffects(w, e);
    var x := Step(w, e);
    forall id | id in x.spent && !(id in Ledger(x) && Ledger(x)[id] == expiry(id))
      ensures Closed(x, id, expiry(id))
    {
      ReplyOneGrant(w, x, e.r, e.boot, ok, estimated, expiry, id);
    }
  }

  lemma ForgetsLoses(w: World, e: Event, expiry: Id -> nat)
    requires Inv(w, expiry) && Enabled(w, e) && Forgets(w, e, expiry)
    ensures !SpentOk(Step(w, e), expiry)
  {
    ReplyMemory(w, e);
    var id :| id in w.spent && id in Ledger(w) && id !in Ledger(Step(w, e))
      && Unaware(w.process.value, id, expiry(id));
    assert !Closed(Step(w, e), id, expiry(id));
  }

  /** A spent grant is refused on delivery once the journal no longer holds it. */
  lemma DeliverKeepsSpent(w: World, e: Event, expiry: Id -> nat)
    requires Inv(w, expiry) && Enabled(w, e) && Genuine(e, expiry) && e.Delivers?
    ensures SpentOk(Step(w, e), expiry)
  {
    hide JournalOk, Ledger;
    OtherLedger(w, e);
    OtherMemory(w, e);
    AcceptFacts(w, e);
  }

  /** The heart of one use: a consumption that succeeds was never made before. */
  lemma ConsumeKeepsSpent(w: World, e: Event, expiry: Id -> nat)
    requires Inv(w, expiry) && Enabled(w, e) && e.Consumes?
    ensures SpentOk(Step(w, e), expiry)
    ensures HandsOut(w, e) ==> e.id !in w.spent
  {
    ConsumeLedger(w, e);
    OtherMemory(w, e);
  }

  lemma OtherKeepsSpent(w: World, e: Event, expiry: Id -> nat)
    requires Inv(w, expiry) && Enabled(w, e) && !e.Replies? && !e.Delivers? && !e.Consumes?
    ensures SpentOk(Step(w, e), expiry)
  {
    OtherLedger(w, e);
    if w.process.Some? && !e.Crashes? {
      OtherMemory(w, e);
    }
  }

  /** One step keeps the one-use invariant if and only if it is not a broken
      reply. */
  lemma StepKeepsInvExactly(w: World, e: Event, expiry: Id -> nat)
    requires Inv(w, expiry) && Enabled(w, e) && Genuine(e, expiry)
    ensures Inv(Step(w, e), expiry) <==> !Broken(w, e, expiry)
    ensures HandsOut(w, e) ==> e.id !in w.spent
  {
    StepKeepsMemory(w, e, expiry);
    if e.Replies? {
      ReplyLedger(w, e);
      BrokenForgets(w, e, expiry);
      if Forgets(w, e, expiry) {
        ForgetsLoses(w, e, expiry);
      } else {
        ReplyKeepsSpent(w, e, expiry);
      }
    } else if e.Delivers? {
      OtherLedger(w, e);
      DeliverKeepsSpent(w, e, expiry);
    } else if e.Consumes? {
      ConsumeLedger(w, e);
      ConsumeKeepsSpent(w, e, expiry);
    } else {
      OtherLedger(w, e);
      OtherKeepsSpent(w, e, expiry);
    }
  }

  lemma StepKeepsJournal(w: World, e: Event)
    requires JournalOk(w) && Enabled(w, e)
    ensures JournalOk(Step(w, e))
  {
    if e.Replies? {
      ReplyLedger(w, e);
    } else if e.Consumes? {
      ConsumeLedger(w, e);
    } else {
      OtherLedger(w, e);
    }
  }

  // ---- Runs --------------------------------------------------------------------------------

  /** Any openable journal may be there at the start. */
  ghost predicate IsRun(ws: seq<World>, es: seq<Event>, expiry: Id -> nat) {
    && |ws| == |es| + 1
    && J.DiskOk(ws[0].d.disk) && ws[0].process.None? && ws[0].spent == {}
    && forall i | 0 <= i < |es| ::
         Enabled(ws[i], es[i]) && Genuine(es[i], expiry) && ws[i + 1] == Step(ws[i], es[i])
  }

  lemma {:induction false} RunJournal(ws: seq<World>, es: seq<Event>, expiry: Id -> nat, i: nat)
    requires IsRun(ws, es, expiry) && i < |ws|
    ensures JournalOk(ws[i])
  {
    if i > 0 {
      RunJournal(ws, es, expiry, i - 1);
      StepKeepsJournal(ws[i - 1], es[i - 1]);
    }
  }

  /** A broken reply is the end of its process. */
  ghost predicate EndsBroken(ws: seq<World>, es: seq<Event>, expiry: Id -> nat)
    requires IsRun(ws, es, expiry)
  {
    forall i | 0 <= i && i + 1 < |es| && Broken(ws[i], es[i], expiry) :: es[i + 1].Crashes?
  }

  /** A crash inside a reply, wherever it strikes, keeps the invariant: the mark
      was written first and closes every grant whose record is gone. */
  lemma CrashInReply(w: World, e: Event, expiry: Id -> nat)
    requires Inv(w, expiry) && Enabled(w, e) && e.Replies?
    ensures Enabled(Step(w, e), Crashes) && Inv(Step(Step(w, e), Crashes), expiry)
  {
    hide AcceptReply, CheckReply, J.Current;
    ReplyLedger(w, e);
    var ok, estimated := ReplyEffects(w, e);
    var x := Step(w, e);
    var y := Step(x, Crashes);
    assert y.d == x.d && y.process.None? && y.spent == w.spent && Ledger(y) == Ledger(x);
    forall id | id in y.spent && !(id in Ledger(y) && Ledger(y)[id] == expiry(id))
      ensures Closed(y, id, expiry(id))
    {
      assert id in Ledger(w) && id !in Ledger(x) ==> x.d.disk != w.d.disk;
    }
  }

  lemma {:induction false} RunInv(ws: seq<World>, es: seq<Event>, expiry: Id -> nat, i: nat)
    requires IsRun(ws, es, expiry) && EndsBroken(ws, es, expiry) && i < |ws|
    requires i > 0 ==> !Broken(ws[i - 1], es[i - 1], expiry)
    ensures Inv(ws[i], expiry)
  {
    if i > 1 && Broken(ws[i - 2], es[i - 2], expiry) {
      hide Step, Enabled, Broken, Inv;
      assert es[i - 1].Crashes?;
      BrokenReplies(ws[i - 2], es[i - 2], expiry);
      RunInv(ws, es, expiry, i - 2);
      CrashInReply(ws[i - 2], es[i - 2], expiry);
    } else if i > 0 {
      RunInv(ws, es, expiry, i - 1);
      StepKeepsInvExactly(ws[i - 1], es[i - 1], expiry);
    }
  }

  lemma BrokenReplies(w: World, e: Event, expiry: Id -> nat)
    requires Enabled(w, e) && Broken(w, e, expiry)
    ensures e.Replies?
  {
  }

  lemma SpentGrows(w: World, e: Event)
    requires Enabled(w, e)
    ensures w.spent <= Step(w, e).spent
    ensures HandsOut(w, e) ==> e.id in Step(w, e).spent
  {
  }

  lemma {:induction false} SpentStays(ws: seq<World>, es: seq<Event>, expiry: Id -> nat, i: nat, j: nat)
    requires IsRun(ws, es, expiry) && i <= j < |ws|
    ensures ws[i].spent <= ws[j].spent
  {
    if i < j {
      SpentStays(ws, es, expiry, i, j - 1);
      SpentGrows(ws[j - 1], es[j - 1]);
    }
  }

  /** At most once, end to end: over every run of starts, crashes at any point,
      replies with arbitrary signed times, redeliveries and failed writes in
      which a process does not outlive a broken reply, two consumptions that
      succeed are of different grants. */
  lemma AtMostOnce(ws: seq<World>, es: seq<Event>, expiry: Id -> nat, i: nat, j: nat)
    requires IsRun(ws, es, expiry) && EndsBroken(ws, es, expiry) && i < j < |es|
    requires HandsOut(ws[i], es[i]) && HandsOut(ws[j], es[j])
    ensures es[i].id != es[j].id
  {
    RunInv(ws, es, expiry, j);
    StepKeepsInvExactly(ws[j], es[j], expiry);
    SpentGrows(ws[i], es[i]);
    SpentStays(ws, es, expiry, i + 1, j);
  }
}
