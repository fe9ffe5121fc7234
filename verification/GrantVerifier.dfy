/** Freshness-bound grant deadlines: time replies, grant acceptance,
    consumption, revocation and retirement, as steps over the verifier's
    memory and its three durable files. */
module GrantVerifier {
  import opened Text
  import opened Collections
  import opened JournalLine
  import opened JournalFile
  import G = GrantJournal
  import R = RevocationJournal

  const MAX_REPLY_DELAY_MS: nat := 35_000
  const MAX_DOCUMENT_AGE_MS: nat := 60_000
  const ROLLBACK_TOLERANCE_MS: nat := 2_000
  const MAX_LIFETIME_MS: nat := 3_600_000
  const MAX_RETIRED: nat := 10_000
  const MAX_ACCEPTED: nat := 10_000

  datatype Mode = File | Socket | BrowserSession

  datatype Grant = Grant(
    id: Id, operationId: Id, nodeId: Id, workloadId: Id, invocationId: string, unit: string, account: string,
    recipientKeyId: string, registrationVersion: nat, policyVersion: nat, action: string, mode: Mode,
    audience: string, issuerEpoch: nat, issuedAt: nat, expiresAt: nat, ceilingSeconds: nat)

  datatype Policy = Policy(
    policyVersion: nat, ceilingSeconds: nat, allowedActions: set<string>, allowedModes: set<Mode>)

  datatype Registration = Registration(
    nodeId: Id, workloadId: Id, unit: string, account: string, invocationId: Option<string>, status: string,
    registrationVersion: nat, policyVersion: nat, ceilingSeconds: nat, mode: Mode)

  datatype Authorization = Authorization(
    nodeId: Id, workloadId: Id, unit: string, invocationId: string, operation: string)

  datatype Reply = Reply(challenge: string, nodeId: Id, issuerEpoch: nat, receivedAt: nat, controllerTime: nat)

  datatype Challenge = Challenge(value: string, sentAt: nat)

  /** `signed` bounds controller time at receipt from below, `estimated` from
      above. */
  datatype TrustedTime = TrustedTime(signed: nat, estimated: nat, receivedAt: nat)

  datatype Accepted = Accepted(grant: Grant, deadline: nat, digest: string)

  datatype Denial =
    | Expired | Revoked | Consumed | Unknown | IdentityMismatch | PolicyStale
    | RegistrationChanged | EpochStale | KeyRotated | Unavailable

  datatype Verifier = Verifier(
    pending: Option<Challenge>,
    trusted: Option<TrustedTime>,
    highest: Option<nat>,
    accepted: map<Id, Accepted>,
    epoch: Option<nat>,
    retired: map<Id, Denial>,
    retiredOrder: seq<Id>,
    journal: G.Journal,
    revocations: R.Revocations)

  /** The consumption journal, the persisted time mark and the revocation file. */
  datatype Durable = Durable(disk: G.Disk, mark: Option<nat>, revoked: string)

  function Initial(d: Durable, journal: G.Journal, marks: R.Tombstones): Verifier {
    Verifier(None, None, d.mark, map[], None, map[], [], journal, R.Revocations(marks, {}))
  }

  /** Process start: read the mark and open both journals; each open cuts a
      torn tail in its file. */
  function Start(d: Durable): (Durable, Option<Verifier>) {
    var (disk, journal) := G.Open(d.disk);
    match journal
    case None => (d.(disk := disk), None)
    case Some(j) =>
      var after := d.(disk := disk, revoked := R.AfterOpen(d.revoked));
      match R.Reopen(d.revoked)
      case None => (after, None)
      case Some(marks) => (after, Some(Initial(d, j, marks)))
  }

  // ---- Time ----------------------------------------------------------------

  /** Controller time at boottime `boot`, from a reply at most 35 s old. */
  function TrustedNow(v: Verifier, boot: nat): Option<nat> {
    match v.trusted
    case None => None
    case Some(t) =>
      var elapsed := SatSub(boot, t.receivedAt);
      if elapsed > MAX_REPLY_DELAY_MS || t.estimated + elapsed > U64_MAX then None else Some(t.estimated + elapsed)
  }

  /** Signed time plus the part of the round trip the controller did not hold. */
  function Estimate(r: Reply, sentAt: nat, boot: nat): Option<nat> {
    if boot < sentAt || boot - sentAt > MAX_REPLY_DELAY_MS then None else
    var estimated := r.controllerTime + SatSub(boot - sentAt, SatSub(r.controllerTime, r.receivedAt));
    if estimated > U64_MAX then None else Some(estimated)
  }

  /** The earliest estimate the previous trusted time allows. */
  function MinimumNow(t: TrustedTime, boot: nat): nat {
    SatSub(SatAdd(t.signed, SatSub(boot, t.receivedAt)), ROLLBACK_TOLERANCE_MS)
  }

  /** All checks on a reply; the accepted estimate. */
  function CheckReply(v: Verifier, r: Reply, nodeId: Id, epoch: nat, boot: nat): Option<nat> {
    if v.pending.None? || r.challenge != v.pending.value.value || r.nodeId != nodeId || r.issuerEpoch != epoch
    then None else
    match Estimate(r, v.pending.value.sentAt, boot)
    case None => None
    case Some(estimated) =>
      if v.trusted.Some? && estimated < MinimumNow(v.trusted.value, boot) then None
      else if v.highest.Some? && SatAdd(r.controllerTime, ROLLBACK_TOLERANCE_MS) < v.highest.value then None
      else Some(estimated)
  }

  function Raised(highest: Option<nat>, t: nat): nat {
    match highest case None => t case Some(h) => if h < t then t else h
  }

  // ---- Retirement ------------------------------------------------------------

  /** Remember why an accepted grant was dropped, within a fixed bound. */
  function Retire(v: Verifier, id: Id, reason: Denial): Verifier {
    var order := if id in v.retired then v.retiredOrder else v.retiredOrder + [id];
    var (retired, kept) := EvictOldest(v.retired[id := reason], order, MAX_RETIRED);
    v.(retired := retired, retiredOrder := kept)
  }

  function Drop(v: Verifier, id: Id, reason: Denial): Verifier {
    Retire(v.(accepted := v.accepted - {id}), id, reason)
  }

  /** Drop the accepted grants `ids`, in that order. */
  function DropAll(v: Verifier, ids: seq<Id>, reason: Denial): Verifier
    decreases |ids|
  {
    if ids == [] then v else DropAll(Drop(v, ids[0], reason), ids[1..], reason)
  }

  // ---- Accepting a time reply -------------------------------------------------

  /** The mark write fails before or after the rename, or succeeds. */
  datatype MarkIo = MarkLost | MarkUnsynced | MarkWritten

  /** The outcome of every file operation of one reply, and the orders in which
      maps were walked. */
  datatype ReplyIo = ReplyIo(
    mark: MarkIo, pruneOrder: seq<Id>, prune: G.RewriteIo,
    revokeOrder: seq<Id>, revoke: R.RewriteIo, expiredOrder: seq<Id>)

  function ExpiredIds(v: Verifier, estimated: nat, boot: nat): set<Id> {
    set id | id in v.accepted && (v.accepted[id].grant.expiresAt <= estimated || v.accepted[id].deadline <= boot)
  }

  /** The last part: expire, then adopt the new time. */
  function AdoptTime(v: Verifier, r: Reply, estimated: nat, boot: nat, expired: seq<Id>): Verifier {
    DropAll(v, expired, Expired).(
      highest := Some(Raised(v.highest, r.controllerTime)),
      trusted := Some(TrustedTime(r.controllerTime, estimated, boot)))
  }

  /** The orders walk exactly the sets the code walks. */
  ghost predicate ReplyOrders(d: Durable, v: Verifier, r: Reply, estimated: nat, boot: nat, io: ReplyIo) {
    && Enumerates(io.pruneOrder, G.KeptIds(G.Synchronize(d.disk, v.journal).1.state, r.controllerTime))
    && Enumerates(io.revokeOrder, R.KeptMarks(v.revocations.marks, r.controllerTime).retained.Keys)
    && Enumerates(io.expiredOrder, ExpiredIds(v, estimated, boot))
  }

  /** The revocation journal, and only then the new time. */
  ghost function Sweep(d: Durable, v: Verifier, r: Reply, estimated: nat, boot: nat, io: ReplyIo)
    : (Durable, Verifier, bool)
    requires Enumerates(io.revokeOrder, R.KeptMarks(v.revocations.marks, r.controllerTime).retained.Keys)
  {
    var (file, revocations, swept) :=
      R.Prune(d.revoked, v.revocations, r.controllerTime, io.revokeOrder, io.revoke);
    var d2, v2 := d.(revoked := file), v.(revocations := revocations);
    if !swept then (d2, v2, false) else
    (d2, AdoptTime(v2, r, estimated, boot, io.expiredOrder), true)
  }

  /** `accept_time_reply`: mark, prune both journals, expire, adopt; any failure
      on the way leaves what was already done. */
  ghost function AcceptReply(
    d: Durable, v: Verifier, r: Reply, nodeId: Id, epoch: nat, boot: nat, io: ReplyIo): (Durable, Verifier, bool)
    requires CheckReply(v, r, nodeId, epoch, boot).Some? ==>
               ReplyOrders(d, v, r, CheckReply(v, r, nodeId, epoch, boot).value, boot, io)
  {
    var taken := v.(pending := None);
    match CheckReply(v, r, nodeId, epoch, boot)
    case None => (d, taken, false)
    case Some(estimated) =>
      if io.mark.MarkLost? then (d, taken, false) else
      var marked := d.(mark := Some(Raised(v.highest, r.controllerTime)));
      if io.mark.MarkUnsynced? then (marked, taken, false) else
      var (disk, journal, pruned) := G.Prune(d.disk, v.journal, r.controllerTime, io.pruneOrder, io.prune);
      var d1, v1 := marked.(disk := disk), taken.(journal := journal);
      if !pruned then (d1, v1, false) else Sweep(d1, v1, r, estimated, boot, io)
  }

  /** Memory after a reply: only the challenge and the journals changed, and on
      success the time was adopted on top. */
  lemma ReplyShape(d: Durable, v: Verifier, r: Reply, nodeId: Id, epoch: nat, boot: nat, io: ReplyIo)
    returns (v2: Verifier)
    requires CheckReply(v, r, nodeId, epoch, boot).Some? ==>
               ReplyOrders(d, v, r, CheckReply(v, r, nodeId, epoch, boot).value, boot, io)
    ensures v2 == v.(pending := None, journal := v2.journal, revocations := v2.revocations)
    ensures var (_, v', ok) := AcceptReply(d, v, r, nodeId, epoch, boot, io);
            if ok then
              CheckReply(v, r, nodeId, epoch, boot).Some?
              && v' == AdoptTime(v2, r, CheckReply(v, r, nodeId, epoch, boot).value, boot, io.expiredOrder)
            else v' == v2
  {
    var (_, v', ok) := AcceptReply(d, v, r, nodeId, epoch, boot, io);
    if ok {
      var (_, journal, _) := G.Prune(d.disk, v.journal, r.controllerTime, io.pruneOrder, io.prune);
      var (_, revocations, _) := R.Prune(d.revoked, v.revocations, r.controllerTime, io.revokeOrder, io.revoke);
      v2 := v.(pending := None, journal := journal, revocations := revocations);
    } else {
      v2 := v';
    }
  }

  // ---- Accepting a grant --------------------------------------------------------

  /** Why a grant that is not accepted is not available. */
  function MissingDenial(v: Verifier, id: Id): Denial {
    if id in v.journal.state.consumed then Consumed
    else if id in v.revocations.marks.retained then Revoked
    else if id in v.retired then v.retired[id]
    else Unknown
  }

  /** The grant names exactly the current policy, registration and key. */
  predicate Bindings(g: Grant, nodeId: Id, keyId: string, p: Policy, r: Registration) {
    && g.nodeId == nodeId && g.recipientKeyId == keyId
    && g.registrationVersion == r.registrationVersion && g.policyVersion == p.policyVersion
    && r.policyVersion == g.policyVersion
    && g.ceilingSeconds <= p.ceilingSeconds && g.ceilingSeconds <= r.ceilingSeconds
    && r.status == "active" && r.nodeId == g.nodeId && r.workloadId == g.workloadId
    && r.unit == g.unit && r.account == g.account
    && (r.invocationId.Some? ==> r.invocationId.value == g.invocationId)
    && r.mode == g.mode && g.audience == "blindpass-node"
    && g.action in p.allowedActions && g.mode in p.allowedModes
  }

  predicate Timely(g: Grant, now: nat) {
    && g.issuedAt <= now && now - g.issuedAt <= MAX_DOCUMENT_AGE_MS
    && SatSub(g.expiresAt, g.issuedAt) <= MAX_LIFETIME_MS
  }

  function Ceiling(g: Grant, p: Policy, r: Registration): nat {
    var seconds := Min(g.ceilingSeconds, Min(p.ceilingSeconds, r.ceilingSeconds));
    if seconds * 1_000 > U64_MAX then U64_MAX else seconds * 1_000
  }

  /** The local deadline; None when no lifetime remains. */
  function Deadline(g: Grant, p: Policy, r: Registration, now: nat, boot: nat): Option<nat> {
    if g.expiresAt <= now then None else
    var deadline := boot + Min(g.expiresAt - now, Ceiling(g, p, r));
    if deadline > U64_MAX || deadline <= boot then None else Some(deadline)
  }

  datatype Acceptance = Fresh | Duplicate | Refused

  function AcceptGrant(
    v: Verifier, g: Grant, digest: string, nodeId: Id, keyId: string, p: Policy, r: Registration, boot: nat)
    : (Verifier, Acceptance)
  {
    match TrustedNow(v, boot)
    case None => (v, Refused)
    case Some(now) =>
      if g.id in v.accepted then
        (v, if v.accepted[g.id].digest == digest && v.accepted[g.id].grant == g then Duplicate else Refused)
      else if MissingDenial(v, g.id) != Unknown then (v, Refused)
      else if g.expiresAt <= now || v.epoch != Some(g.issuerEpoch) then (v, Refused)
      else if !Bindings(g, nodeId, keyId, p, r) || !Timely(g, now) then (v, Refused)
      else
        match Deadline(g, p, r, now, boot)
        case None => (v, Refused)
        case Some(deadline) =>
          if |v.accepted| >= MAX_ACCEPTED then (v, Refused)
          else (v.(accepted := v.accepted[g.id := Accepted(g, deadline, digest)]), Fresh)
  }

  /** A deadline lies within the signed lifetime and each of the ceilings. */
  lemma DeadlineBounds(g: Grant, p: Policy, r: Registration, now: nat, boot: nat)
    requires Deadline(g, p, r, now, boot).Some?
    ensures var deadline := Deadline(g, p, r, now, boot).value;
            && boot < deadline && deadline + now <= boot + g.expiresAt
            && deadline <= boot + 1_000 * g.ceilingSeconds && deadline <= boot + 1_000 * p.ceilingSeconds
            && deadline <= boot + 1_000 * r.ceilingSeconds
  {
  }

  /** Only an unknown, unexpired, fully bound grant of the pinned epoch is
      newly accepted, and nothing else changes. */
  lemma AcceptGrantFacts(
    v: Verifier, g: Grant, digest: string, nodeId: Id, keyId: string, p: Policy, r: Registration, boot: nat)
    ensures var (v', result) := AcceptGrant(v, g, digest, nodeId, keyId, p, r, boot);
            && (!result.Fresh? ==> v' == v)
            && (result.Fresh? ==>
                  var now := TrustedNow(v, boot);
                  && g.id !in v.accepted && MissingDenial(v, g.id) == Unknown
                  && now.Some? && now.value < g.expiresAt && v.epoch == Some(g.issuerEpoch)
                  && Bindings(g, nodeId, keyId, p, r) && Timely(g, now.value)
                  && Deadline(g, p, r, now.value, boot).Some?
                  && v' == v.(accepted := v.accepted[
                                g.id := Accepted(g, Deadline(g, p, r, now.value, boot).value, digest)]))
  {
  }

  // ---- Consuming -----------------------------------------------------------------

  predicate NamesGrant(a: Authorization, g: Grant, id: Id) {
    && a.nodeId == g.nodeId && a.workloadId == g.workloadId && a.unit == g.unit
    && a.invocationId == g.invocationId && a.operation == "consume:" + id && g.audience == "blindpass-node"
  }

  /** The one reason a consumption is denied, or none. */
  function Validate(v: Verifier, id: Id, a: Authorization, policyVersion: nat, boot: nat): Option<Denial> {
    if id !in v.accepted then Some(MissingDenial(v, id)) else
    var g := v.accepted[id].grant;
    if !NamesGrant(a, g, id) then Some(IdentityMismatch)
    else if v.epoch != Some(g.issuerEpoch) then Some(EpochStale)
    else if g.policyVersion != policyVersion then Some(PolicyStale)
    else if boot >= v.accepted[id].deadline then Some(Expired)
    else None
  }

  function Intent(g: Grant): Consumption {
    Consumption(g.id, g.expiresAt, Some(Binding(g.operationId, g.issuerEpoch)))
  }

  /** The intent is durable before the grant is handed out. */
  function Consume(
    d: Durable, v: Verifier, id: Id, a: Authorization, policyVersion: nat, boot: nat, io: G.AppendIo)
    : (Durable, Verifier, bool)
  {
    if Validate(v, id, a, policyVersion, boot).Some? then (d, v, false) else
    var g := v.accepted[id].grant;
    var (disk, journal, ok) := G.Record(d.disk, v.journal, Intent(g), g.nodeId, io);
    var d1, v1 := d.(disk := disk), v.(journal := journal);
    if ok then (d1, v1.(accepted := v1.accepted - {g.id}), true) else (d1, v1, false)
  }

  // ---- Removing authority -----------------------------------------------------------

  /** What a revocation applied now would change. */
  function RevocationOutcome(v: Verifier, id: Id): Outcome {
    if id in v.revocations.marks.outcomes then v.revocations.marks.outcomes[id].outcome
    else if id in v.accepted then RevokedBeforeConsumption
    else if id in v.journal.state.consumed then AlreadyConsumed
    else NotReceived
  }

  /** Memory first, then the file; an error leaves the revocation in force. */
  function Revoke(d: Durable, v: Verifier, id: Id, until: nat, observedAt: nat, io: R.AppendIo)
    : (Durable, Verifier, bool)
  {
    var tombstone := Tombstone(id, until, Some(Observation(RevocationOutcome(v, id), observedAt)));
    var v1 := if id in v.accepted then Drop(v, id, Revoked) else v;
    var (file, revocations, ok) := R.Record(d.revoked, v.revocations, tombstone, io);
    (d.(revoked := file), v1.(revocations := revocations), ok)
  }

  /** Append again every tombstone whose write failed. */
  function RetryRevocations(d: Durable, v: Verifier, order: seq<Id>, ios: seq<R.AppendIo>): (Durable, Verifier)
    requires |ios| == |order|
  {
    var (file, revocations, _) := R.Retry(d.revoked, v.revocations, order, ios);
    (d.(revoked := file), v.(revocations := revocations))
  }

  /** The conditions under which accepted grants lose their authority. */
  datatype Reason =
    NewEpoch(epoch: nat) | NewKey(keyId: string) | NewRegistration(workloadId: Id) | NewPolicy(version: nat)

  predicate Hits(x: Reason, g: Grant) {
    match x
    case NewEpoch(e) => g.issuerEpoch < e
    case NewKey(k) => g.recipientKeyId != k
    case NewRegistration(w) => g.workloadId == w
    case NewPolicy(p) => g.policyVersion != p
  }

  function DenialOf(x: Reason): Denial {
    match x
    case NewEpoch(_) => EpochStale
    case NewKey(_) => KeyRotated
    case NewRegistration(_) => RegistrationChanged
    case NewPolicy(_) => PolicyStale
  }

  function HitIds(v: Verifier, x: Reason): set<Id> { set id | id in v.accepted && Hits(x, v.accepted[id].grant) }

  /** A lower or equal epoch changes nothing. */
  predicate Ignored(v: Verifier, x: Reason) { x.NewEpoch? && v.epoch.Some? && x.epoch <= v.epoch.value }

  ghost function Withdraw(v: Verifier, x: Reason, order: seq<Id>): Verifier
    requires Enumerates(order, HitIds(v, x))
  {
    if Ignored(v, x) then v else
    var v1 := DropAll(v, order, DenialOf(x));
    if x.NewEpoch? then v1.(epoch := Some(x.epoch)) else v1
  }
}
