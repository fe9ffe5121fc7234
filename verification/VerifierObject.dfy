/** The grant verifier as the broker holds it: maps, a retirement queue and the
    two journals, updated in place. Each method is proved to be one step of
    `GrantVerifier`, whose runs the other modules reason about. */
module VerifierObject {
  import opened Text
  import opened Collections
  import opened JournalLine
  import opened JournalFile
  import G = GrantJournal
  import R = RevocationJournal
  import opened GrantVerifier
  import C = ConsumptionJournal
  import L = RevocationLog

  class BrokerVerifier {
    const journal: C.Journal
    const revocations: L.Log
    var mark: Option<nat>
    var pending: Option<Challenge>
    var trusted: Option<TrustedTime>
    var highest: Option<nat>
    var accepted: map<Id, Accepted>
    var epoch: Option<nat>
    var retired: map<Id, Denial>
    var retiredOrder: seq<Id>

    function View(): Verifier
      reads this, journal, revocations
    {
      Verifier(pending, trusted, highest, accepted, epoch, retired, retiredOrder, journal.View(), revocations.View())
    }

    function Files(): Durable
      reads this, journal.store, revocations
    {
      Durable(journal.store.View(), mark, revocations.file)
    }

    constructor (journal: C.Journal, revocations: L.Log, mark: Option<nat>)
      ensures this.journal == journal && this.revocations == revocations
      ensures View() == Verifier(None, None, mark, map[], None, map[], [], journal.View(), revocations.View())
      ensures Files() == Durable(journal.store.View(), mark, revocations.file)
    {
      this.journal, this.revocations, this.mark, highest := journal, revocations, mark, mark;
      pending, trusted, accepted, epoch, retired, retiredOrder := None, None, map[], None, map[], [];
    }

    method BeginTimeChallenge(value: string, boot: nat)
      modifies `pending
      ensures View() == old(View()).(pending := Some(Challenge(value, boot)))
    {
      pending := Some(Challenge(value, boot));
    }

    /** Remember why a grant was dropped, forgetting the oldest beyond the
        bound. */
    method RetireOne(id: Id, reason: Denial)
      modifies `retired, `retiredOrder
      ensures View() == Retire(old(View()), id, reason)
    {
      if id !in retired {
        retiredOrder := retiredOrder + [id];
      }
      retired := retired[id := reason];
      ghost var start := (retired, retiredOrder);
      while |retiredOrder| > MAX_RETIRED
        invariant EvictOldest(retired, retiredOrder, MAX_RETIRED) == EvictOldest(start.0, start.1, MAX_RETIRED)
        decreases |retiredOrder|
      {
        var oldest := retiredOrder[0];
        retiredOrder := retiredOrder[1..];
        retired := retired - {oldest};
      }
    }

    /** Drop the listed grants in order. */
    method DropListed(ids: seq<Id>, reason: Denial)
      modifies `accepted, `retired, `retiredOrder
      ensures View() == DropAll(old(View()), ids, reason)
    {
      var i := 0;
      while i < |ids|
        invariant 0 <= i <= |ids|
        invariant DropAll(View(), ids[i..], reason) == DropAll(old(View()), ids, reason)
      {
        accepted := accepted - {ids[i]};
        RetireOne(ids[i], reason);
        assert ids[i..][1..] == ids[i + 1..];
        i := i + 1;
      }
    }

    /** `retire_where` for the conditions of a withdrawal. */
    method WithdrawFor(x: Reason) returns (ghost order: seq<Id>)
      modifies `accepted, `retired, `retiredOrder, `epoch
      ensures Enumerates(order, HitIds(old(View()), x)) && View() == Withdraw(old(View()), x, order)
    {
      if x.NewEpoch? && epoch.Some? && x.epoch <= epoch.value {
        order := C.AnyOrder(HitIds(View(), x));
        return order;
      }
      var ids := ListHits(x);
      order := ids;
      DropListed(ids, DenialOf(x));
      if x.NewEpoch? {
        epoch := Some(x.epoch);
      }
    }

    /** The accepted grants a withdrawal hits, listed once each. */
    method ListHits(x: Reason) returns (ids: seq<Id>)
      ensures Enumerates(ids, HitIds(View(), x))
    {
      ids := [];
      var left := accepted.Keys;
      while left != {}
        invariant left <= accepted.Keys
        invariant Enumerates(ids, set id | id in accepted && id !in left && Hits(x, accepted[id].grant))
        decreases left
      {
        var id :| id in left;
        left := left - {id};
        if Hits(x, accepted[id].grant) {
          ids := Listed(ids, id, set k | k in accepted && k !in left && Hits(x, accepted[k].grant));
        }
      }
    }

    /** The accepted grants that are over at a new estimate. */
    method ListExpired(estimated: nat, boot: nat) returns (ids: seq<Id>)
      ensures Enumerates(ids, ExpiredIds(View(), estimated, boot))
    {
      ids := [];
      var left := accepted.Keys;
      while left != {}
        invariant left <= accepted.Keys
        invariant Enumerates(ids, set id | id in ExpiredIds(View(), estimated, boot) && id !in left)
        decreases left
      {
        var id :| id in left;
        left := left - {id};
        if accepted[id].grant.expiresAt <= estimated || accepted[id].deadline <= boot {
          ids := Listed(ids, id, set k | k in ExpiredIds(View(), estimated, boot) && k !in left);
        }
      }
      assert ExpiredIds(View(), estimated, boot) == set id | id in ExpiredIds(View(), estimated, boot) && id !in left;
    }

    /** The last part of a reply: the revocation journal, then the new time. */
    method SweepAndAdopt(r: Reply, estimated: nat, boot: nat, io: ReplyIo) returns (ok: bool, ghost done: ReplyIo)
      modifies this, revocations
      ensures done == io.(revokeOrder := done.revokeOrder, expiredOrder := done.expiredOrder)
      ensures Enumerates(done.revokeOrder, R.KeptMarks(old(View()).revocations.marks, r.controllerTime).retained.Keys)
      ensures Enumerates(done.expiredOrder, ExpiredIds(old(View()), estimated, boot))
      ensures (Files(), View(), ok) == Sweep(old(Files()), old(View()), r, estimated, boot, done)
    {
      var swept, order := revocations.Prune(r.controllerTime, io.revoke);
      var expired := ListExpired(estimated, boot);
      done := io.(revokeOrder := order, expiredOrder := expired);
      if !swept {
        return false, done;
      }
      var raised := Raised(highest, r.controllerTime);
      DropListed(expired, Expired);
      highest := Some(raised);
      trusted := Some(TrustedTime(r.controllerTime, estimated, boot));
      ok := true;
    }

    /** `accept_time_reply`. The outcomes of the three writes are parameters; the
        orders in which the maps were walked come back as a ghost. */
    method AcceptTimeReply(r: Reply, nodeId: Id, epoch0: nat, boot: nat, io: ReplyIo)
      returns (ok: bool, ghost done: ReplyIo)
      modifies this, journal, journal.store, revocations
      ensures done.mark == io.mark && done.prune == io.prune && done.revoke == io.revoke
      ensures CheckReply(old(View()), r, nodeId, epoch0, boot).Some? ==>
                ReplyOrders(old(Files()), old(View()), r, CheckReply(old(View()), r, nodeId, epoch0, boot).value,
                            boot, done)
      ensures (Files(), View(), ok) == AcceptReply(old(Files()), old(View()), r, nodeId, epoch0, boot, done)
    {
      var check := CheckReply(View(), r, nodeId, epoch0, boot);
      done := AnyOrders(Files(), View(), r, if check.Some? then check.value else 0, boot, io);
      pending := None;
      ok := false;
      if check.None? || io.mark.MarkLost? {
        return;
      }
      mark := Some(Raised(highest, r.controllerTime));
      if io.mark.MarkUnsynced? {
        return;
      }
      var pruned, order := journal.Prune(r.controllerTime, io.prune);
      done := done.(pruneOrder := order);
      if pruned {
        ghost var before := done;
        ok, done := SweepAndAdopt(r, check.value, boot, io);
        done := done.(pruneOrder := before.pruneOrder);
      }
    }

    /** `accept_grant`: redeliveries are settled before any binding check. */
    method AcceptSigned(g: Grant, digest: string, nodeId: Id, keyId: string, p: Policy, reg: Registration, boot: nat)
      returns (result: Acceptance)
      modifies `accepted
      ensures (View(), result) == AcceptGrant(old(View()), g, digest, nodeId, keyId, p, reg, boot)
    {
      var now := TrustedNow(View(), boot);
      if now.None? {
        return Refused;
      }
      if g.id in accepted {
        var existing := accepted[g.id];
        return if existing.digest == digest && existing.grant == g then Duplicate else Refused;
      }
      if MissingDenial(View(), g.id) != Unknown {
        return Refused;
      }
      if g.expiresAt <= now.value || epoch != Some(g.issuerEpoch) {
        return Refused;
      }
      if !Bindings(g, nodeId, keyId, p, reg) || !Timely(g, now.value) {
        return Refused;
      }
      var deadline := Deadline(g, p, reg, now.value, boot);
      if deadline.None? || |accepted| >= MAX_ACCEPTED {
        return Refused;
      }
      accepted := accepted[g.id := Accepted(g, deadline.value, digest)];
      result := Fresh;
    }

    /** `consume`: the intent is durable before the grant is handed out. */
    method ConsumeGrant(id: Id, a: Authorization, policyVersion: nat, boot: nat, io: G.AppendIo)
      returns (grant: Option<Grant>, denial: Denial)
      modifies `accepted, journal, journal.store
      ensures (Files(), View(), grant.Some?) == Consume(old(Files()), old(View()), id, a, policyVersion, boot, io)
      ensures grant.Some? ==> id in old(accepted) && grant == Some(old(accepted)[id].grant)
    {
      var refused := Validate(View(), id, a, policyVersion, boot);
      if refused.Some? {
        return None, refused.value;
      }
      var g := accepted[id].grant;
      var ok := journal.Record(Intent(g), g.nodeId, io);
      if !ok {
        return None, Unavailable;
      }
      accepted := accepted - {g.id};
      grant, denial := Some(g), Unknown;
    }

    /** `revoke`: the grant loses its authority before the tombstone is
        written, and keeps it lost when the write fails. */
    method RevokeGrant(id: Id, until: nat, observedAt: nat, io: R.AppendIo) returns (ok: bool)
      modifies `accepted, `retired, `retiredOrder, revocations
      ensures (Files(), View(), ok) == Revoke(old(Files()), old(View()), id, until, observedAt, io)
    {
      var outcome := RevocationOutcome(View(), id);
      if id in accepted {
        accepted := accepted - {id};
        RetireOne(id, Revoked);
      }
      ok := revocations.Record(Tombstone(id, until, Some(Observation(outcome, observedAt))), io);
    }

    method RetryRevocationWrites(order: seq<Id>, ios: seq<R.AppendIo>)
      requires |ios| == |order| && Enumerates(order, revocations.unpersisted)
      modifies revocations
      ensures (Files(), View()) == RetryRevocations(old(Files()), old(View()), order, ios)
    {
      var _ := revocations.RetryUnpersisted(order, ios);
    }
  }

  /** Orders for maps that are not walked. */
  lemma AnyOrders(d: Durable, v: Verifier, r: Reply, estimated: nat, boot: nat, io: ReplyIo) returns (done: ReplyIo)
    ensures done.mark == io.mark && done.prune == io.prune && done.revoke == io.revoke
    ensures ReplyOrders(d, v, r, estimated, boot, done)
  {
    var a := C.AnyOrder(G.KeptIds(G.Synchronize(d.disk, v.journal).1.state, r.controllerTime));
    var b := C.AnyOrder(R.KeptMarks(v.revocations.marks, r.controllerTime).retained.Keys);
    var c := C.AnyOrder(ExpiredIds(v, estimated, boot));
    done := io.(pruneOrder := a, revokeOrder := b, expiredOrder := c);
  }

  /** One more element at the end of an enumeration. */
  function Listed(ids: seq<Id>, id: Id, ghost all: set<Id>): (r: seq<Id>)
    requires Enumerates(ids, all - {id}) && id in all
    ensures Enumerates(r, all)
  {
    assert id !in Elements(ids);
    assert Elements(ids + [id]) == Elements(ids) + {id};
    ids + [id]
  }
}
