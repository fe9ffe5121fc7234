/** The broker's step over controller documents: pin and epoch, key rotation,
    registrations, policy, grants and revocations. Authority that was withdrawn
    does not come back within a process. */
module AuthorityRuns {
  import opened Text
  import opened JournalLine
  import G = GrantJournal
  import R = RevocationJournal
  import opened GrantVerifier
  import V = VerifierRuns

  /** Everything a grant is checked against. */
  datatype Config = Config(
    nodeId: Id, pin: Option<nat>, keyVersion: nat, policy: Option<Policy>, registrations: map<Id, Registration>)

  datatype Broker = Broker(w: V.World, c: Config)

  datatype Body =
    | RegistrationDoc(reg: Registration)
    | PolicyDoc(policy: Policy)
    | GrantDoc(g: Grant, digest: string)
    | RevocationDoc(nodeId: Id, id: Id, until: nat, observedAt: nat, io: R.AppendIo)
    | RotationDoc(nodeId: Id, version: nat, unsynced: bool)
    | ReplyDoc(r: Reply, replyIo: ReplyIo)
    | OtherDoc

  /** `Document`: a relayed document with a valid signature; `pinned` is false
      when advancing the pin fails. A rotation that is refused is `OtherDoc`.
      `epochOrder` and `hitOrder` are the orders in which accepted grants were
      walked. `PinIssuer` is the operator's command, `RecoveryPin` raises the pin
      for a recovery report. `Local` is any other step of the verifier. */
  datatype Event =
    | Document(epoch: nat, body: Body, boot: nat, pinned: bool, fenced: bool,
               epochOrder: seq<Id>, hitOrder: seq<Id>)
    | PinIssuer(pinEpoch: nat, pinOrder: seq<Id>)
    | RecoveryPin(generation: nat)
    | Local(e: V.Event)

  function KeyId(nodeId: Id, version: nat): string { nodeId + "-" + Digits(version) }

  lemma KeyIdInjective(nodeId: Id, a: nat, b: nat)
    requires KeyId(nodeId, a) == KeyId(nodeId, b)
    ensures a == b
  {
    assert KeyId(nodeId, a)[|nodeId| + 1..] == Digits(a);
    assert KeyId(nodeId, b)[|nodeId| + 1..] == Digits(b);
    ValueOfDigits(a);
    ValueOfDigits(b);
  }

  // ---- The step ---------------------------------------------------------------------

  /** A newer version replaces; an older or equal one changes nothing. */
  predicate NewRegistration(c: Config, r: Registration) {
    r.nodeId == c.nodeId
    && (r.workloadId in c.registrations ==>
          r.registrationVersion > c.registrations[r.workloadId].registrationVersion)
  }

  predicate NewerPolicy(c: Config, p: Policy) {
    c.policy.Some? ==> p.policyVersion > c.policy.value.policyVersion
  }

  /** The staged key is promoted, or the same rotation arrives again. */
  predicate Rotates(c: Config, nodeId: Id, version: nat) {
    nodeId == c.nodeId && (version == c.keyVersion + 1 || version == c.keyVersion)
  }

  /** The new key is active, but the final flush failed and the document is
      reported as an error before any grant is retired. */
  predicate Interrupted(c: Config, body: Body) {
    body.RotationDoc? && body.unsynced && body.version == c.keyVersion + 1
  }

  /** The pin after a document of epoch `epoch`. */
  function Advanced(c: Config, epoch: nat): Config
    requires c.pin.Some?
  {
    c.(pin := Some(Max(c.pin.value, epoch)))
  }

  function Observe(epoch: nat, order: seq<Id>): V.Event { V.Withdraws(NewEpoch(epoch), order) }

  /** What the verifier is asked to do with the body of a document. */
  function BodyEvent(c: Config, e: Event): Option<V.Event>
    requires e.Document? && c.pin.Some?
  {
    var stale := e.epoch < c.pin.value;
    match e.body
    case RevocationDoc(nodeId, id, until, observedAt, io) =>
      if nodeId == c.nodeId then Some(V.Revokes(id, until, observedAt, io)) else None
    case RegistrationDoc(r) =>
      if !stale && NewRegistration(c, r) then Some(V.Withdraws(Reason.NewRegistration(r.workloadId), e.hitOrder))
      else None
    case PolicyDoc(p) =>
      if !stale && NewerPolicy(c, p) then Some(V.Withdraws(NewPolicy(p.policyVersion), e.hitOrder)) else None
    case GrantDoc(g, digest) =>
      if stale || g.nodeId != c.nodeId || e.fenced || g.workloadId !in c.registrations || c.policy.None? then None
      else Some(V.Delivers(g, digest, c.nodeId, KeyId(c.nodeId, c.keyVersion), c.policy.value,
                           c.registrations[g.workloadId], e.boot))
    case RotationDoc(nodeId, version, _) =>
      if !stale && Rotates(c, nodeId, version) && !Interrupted(c, e.body)
      then Some(V.Withdraws(NewKey(KeyId(c.nodeId, version)), e.hitOrder)) else None
    case ReplyDoc(r, io) =>
      if !stale && r.nodeId == c.nodeId then Some(V.Replies(r, c.nodeId, e.epoch, e.boot, io)) else None
    case OtherDoc => None
  }

  /** What a current document changes in the configuration. */
  function NextConfig(c: Config, e: Event): Config
    requires e.Document? && c.pin.Some?
  {
    if e.epoch < c.pin.value then c else
    match e.body
    case RegistrationDoc(r) =>
      if NewRegistration(c, r) then c.(registrations := c.registrations[r.workloadId := r]) else c
    case PolicyDoc(p) => if NewerPolicy(c, p) then c.(policy := Some(p)) else c
    case RotationDoc(nodeId, version, _) => if Rotates(c, nodeId, version) then c.(keyVersion := version) else c
    case _ => c
  }

  /** No pin, or the pin could not be advanced: the document is refused. */
  predicate RefusedEarly(c: Config, e: Event)
    requires e.Document?
  {
    c.pin.None? || (e.epoch > c.pin.value && !e.pinned)
  }

  /** Steps of one running process. */
  ghost predicate Enabled(b: Broker, e: Event) {
    b.w.process.Some?
    && match e
       case Document(epoch, _, _, _, _, epochOrder, _) =>
         RefusedEarly(b.c, e)
         || (var c := Advanced(b.c, epoch);
             var observe := Observe(c.pin.value, epochOrder);
             && V.Enabled(b.w, observe)
             && (BodyEvent(c, e).Some? ==> V.Enabled(V.Step(b.w, observe), BodyEvent(c, e).value)))
       case PinIssuer(epoch, order) =>
         (b.c.pin.Some? ==> epoch >= b.c.pin.value) && V.Enabled(b.w, Observe(epoch, order))
       case RecoveryPin(_) => b.c.pin.Some?
       case Local(x) =>
         V.Enabled(b.w, x)
         && !x.Starts? && !x.Crashes? && !x.Delivers? && !x.Withdraws? && !x.Replies? && !x.Revokes?
  }

  ghost function Step(b: Broker, e: Event): Broker
    requires Enabled(b, e)
  {
    match e
    case Document(epoch, _, _, _, _, epochOrder, _) =>
      if RefusedEarly(b.c, e) then b else
      var c := Advanced(b.c, epoch);
      var w := V.Step(b.w, Observe(c.pin.value, epochOrder));
      Broker(match BodyEvent(c, e) case None => w case Some(x) => V.Step(w, x), NextConfig(c, e))
    case PinIssuer(epoch, order) => Broker(V.Step(b.w, Observe(epoch, order)), b.c.(pin := Some(epoch)))
    case RecoveryPin(generation) => b.(c := Advanced(b.c, generation))
    case Local(x) => b.(w := V.Step(b.w, x))
  }

  // ---- Accepted grants match the configuration --------------------------------------------

  function Ver(b: Broker): Verifier
    requires b.w.process.Some?
  {
    b.w.process.value
  }

  /** The policy in force allows the grant. */
  predicate Allows(p: Policy, g: Grant) {
    && g.policyVersion == p.policyVersion && g.action in p.allowedActions && g.mode in p.allowedModes
    && g.ceilingSeconds <= p.ceilingSeconds
  }

  /** The registration in force is the one the grant was issued for. */
  predicate Describes(r: Registration, g: Grant) {
    && g.registrationVersion == r.registrationVersion && r.policyVersion == g.policyVersion
    && r.status == "active" && r.nodeId == g.nodeId && r.workloadId == g.workloadId
    && r.unit == g.unit && r.account == g.account && r.mode == g.mode && g.ceilingSeconds <= r.ceilingSeconds
    && (r.invocationId.Some? ==> r.invocationId.value == g.invocationId)
  }

  /** The grant names the epoch the verifier observed, matches the policy and
      registration in force, and names a key of this node not newer than its
      own. */
  ghost predicate Current(v: Verifier, c: Config, g: Grant) {
    && v.epoch == Some(g.issuerEpoch) && g.nodeId == c.nodeId
    && (exists k: nat :: k <= c.keyVersion && g.recipientKeyId == KeyId(c.nodeId, k))
    && c.policy.Some? && Allows(c.policy.value, g)
    && g.workloadId in c.registrations && Describes(c.registrations[g.workloadId], g)
  }

  ghost predicate AllCurrent(v: Verifier, c: Config) {
    forall id | id in v.accepted :: v.accepted[id].grant.id == id && Current(v, c, v.accepted[id].grant)
  }

  /** The configuration has moved past the grant. */
  ghost predicate Outdated(v: Verifier, c: Config, g: Grant) {
    || (v.epoch.Some? && g.issuerEpoch < v.epoch.value)
    || (c.policy.Some? && g.policyVersion < c.policy.value.policyVersion)
    || (g.workloadId in c.registrations
        && g.registrationVersion < c.registrations[g.workloadId].registrationVersion)
    || (exists k: nat :: k < c.keyVersion && g.recipientKeyId == KeyId(c.nodeId, k))
  }

  /** An outdated grant does not match what a delivery is checked against. */
  lemma OutdatedNotBound(v: Verifier, c: Config, g: Grant)
    requires Outdated(v, c, g) && v.epoch == Some(g.issuerEpoch) && c.policy.Some? && g.workloadId in c.registrations
    ensures !Bindings(g, c.nodeId, KeyId(c.nodeId, c.keyVersion), c.policy.value, c.registrations[g.workloadId])
  {
    if g.recipientKeyId == KeyId(c.nodeId, c.keyVersion) {
      forall k: nat | k < c.keyVersion && g.recipientKeyId == KeyId(c.nodeId, k) ensures false {
        KeyIdInjective(c.nodeId, k, c.keyVersion);
      }
    }
  }

  /** Versions only rise. */
  predicate Later(c: Config, c': Config) {
    && c'.nodeId == c.nodeId && c.keyVersion <= c'.keyVersion
    && (c.pin.Some? ==> c'.pin.Some? && c.pin.value <= c'.pin.value)
    && (c.policy.Some? ==> c'.policy.Some? && c.policy.value.policyVersion <= c'.policy.value.policyVersion)
    && (forall w | w in c.registrations ::
          w in c'.registrations
          && c.registrations[w].registrationVersion <= c'.registrations[w].registrationVersion)
  }

  predicate EpochRises(v: Verifier, v': Verifier) {
    v.epoch.Some? ==> v'.epoch.Some? && v.epoch.value <= v'.epoch.value
  }

  lemma StaysOutdated(v: Verifier, v': Verifier, c: Config, c': Config, g: Grant)
    requires Outdated(v, c, g) && Later(c, c') && EpochRises(v, v')
    ensures Outdated(v', c', g)
  {
  }

  // ---- One step of the verifier ----------------------------------------------------------

  predicate InProcess(x: V.Event) { !x.Starts? && !x.Crashes? }

  predicate Subset(v: Verifier, v': Verifier) {
    v'.accepted.Keys <= v.accepted.Keys && forall id | id in v'.accepted :: v'.accepted[id] == v.accepted[id]
  }

  /** Only a delivery adds a grant, and only a newer epoch changes the epoch. */
  lemma WorldStep(w: V.World, x: V.Event)
    requires V.Enabled(w, x) && w.process.Some? && InProcess(x)
    ensures V.Step(w, x).process.Some?
    ensures !x.Delivers? ==> Subset(w.process.value, V.Step(w, x).process.value)
    ensures !x.Withdraws? ==> V.Step(w, x).process.value.epoch == w.process.value.epoch
  {
    if x.Replies? {
      V.ReplyMemory(w, x);
      ReplyKeepsEpoch(w, x);
    } else {
      V.OtherMemory(w, x);
      if x.Revokes? && x.id in w.process.value.accepted {
        V.DropAllFacts(w.process.value, [x.id], Revoked);
      }
    }
  }

  lemma ReplyKeepsEpoch(w: V.World, x: V.Event)
    requires V.Enabled(w, x) && x.Replies?
    ensures V.Step(w, x).process.value.epoch == w.process.value.epoch
  {
    var v := w.process.value;
    var check := CheckReply(v, x.r, x.nodeId, x.epoch, x.boot);
    if check.Some? && x.io.mark.MarkWritten? {
      var (_, journal, _) := G.Prune(w.d.disk, v.journal, x.r.controllerTime, x.io.pruneOrder, x.io.prune);
      var (_, revocations, _) :=
        R.Prune(w.d.revoked, v.revocations, x.r.controllerTime, x.io.revokeOrder, x.io.revoke);
      var v2 := v.(pending := None, journal := journal, revocations := revocations);
      V.DropAllFacts(v2, x.io.expiredOrder, Expired);
    }
  }

  /** Withdrawing drops exactly the grants the reason hits. */
  lemma WithdrawStep(w: V.World, x: V.Event)
    requires V.Enabled(w, x) && w.process.Some? && x.Withdraws?
    ensures var v, v' := w.process.value, V.Step(w, x).process.value;
            && V.Step(w, x).process.Some? && Subset(v, v')
            && v'.accepted.Keys == v.accepted.Keys - (if Ignored(v, x.x) then {} else HitIds(v, x.x))
            && v'.epoch == if x.x.NewEpoch? && !Ignored(v, x.x) then Some(x.x.epoch) else v.epoch
  {
    V.DropAllFacts(w.process.value, x.order, DenialOf(x.x));
  }

  lemma DeliverStep(w: V.World, x: V.Event, c: Config)
    requires V.Enabled(w, x) && w.process.Some? && x.Delivers?
    requires x.nodeId == c.nodeId && x.keyId == KeyId(c.nodeId, c.keyVersion) && c.policy == Some(x.p)
    requires x.g.workloadId in c.registrations && c.registrations[x.g.workloadId] == x.reg
    requires AllCurrent(w.process.value, c)
    ensures V.Step(w, x).process.Some? && AllCurrent(V.Step(w, x).process.value, c)
  {
    AcceptGrantFacts(w.process.value, x.g, x.digest, x.nodeId, x.keyId, x.p, x.reg, x.boot);
  }

  // ---- The invariant ---------------------------------------------------------------------

  /** Observing an epoch leaves only grants of exactly that epoch. */
  lemma ObserveStep(w: V.World, c: Config, epoch: nat, order: seq<Id>)
    requires w.process.Some? && AllCurrent(w.process.value, c) && V.Enabled(w, Observe(epoch, order))
    ensures var v, v' := w.process.value, V.Step(w, Observe(epoch, order)).process.value;
            && V.Step(w, Observe(epoch, order)).process.Some?
            && AllCurrent(v', c) && EpochRises(v, v') && Subset(v, v') && v'.epoch.Some? && v'.epoch.value >= epoch
            && forall id | id in v.accepted && id !in v'.accepted :: Outdated(v', c, v.accepted[id].grant)
  {
    WithdrawStep(w, Observe(epoch, order));
  }

  /** The verifier after a withdrawal other than a new epoch. */
  predicate Withdrawn(v: Verifier, v': Verifier, x: Reason) {
    Subset(v, v') && v'.epoch == v.epoch && v'.accepted.Keys == v.accepted.Keys - HitIds(v, x)
  }

  ghost predicate DropsOnlyOutdated(v: Verifier, v': Verifier, c': Config) {
    forall id | id in v.accepted && id !in v'.accepted :: Outdated(v', c', v.accepted[id].grant)
  }

  lemma RegistrationWithdraws(v: Verifier, v': Verifier, c: Config, r: Registration)
    requires AllCurrent(v, c) && NewRegistration(c, r) && Withdrawn(v, v', Reason.NewRegistration(r.workloadId))
    ensures var c' := c.(registrations := c.registrations[r.workloadId := r]);
            AllCurrent(v', c') && DropsOnlyOutdated(v, v', c')
  {
  }

  lemma PolicyWithdraws(v: Verifier, v': Verifier, c: Config, p: Policy)
    requires AllCurrent(v, c) && NewerPolicy(c, p) && Withdrawn(v, v', NewPolicy(p.policyVersion))
    ensures AllCurrent(v', c.(policy := Some(p))) && DropsOnlyOutdated(v, v', c.(policy := Some(p)))
  {
  }

  lemma RotationWithdraws(v: Verifier, v': Verifier, c: Config, version: nat)
    requires AllCurrent(v, c) && (version == c.keyVersion + 1 || version == c.keyVersion)
    requires Withdrawn(v, v', NewKey(KeyId(c.nodeId, version)))
    ensures AllCurrent(v', c.(keyVersion := version)) && DropsOnlyOutdated(v, v', c.(keyVersion := version))
  {
    forall id | id in v.accepted && id !in v'.accepted
      ensures Outdated(v', c.(keyVersion := version), v.accepted[id].grant)
    {
      var g := v.accepted[id].grant;
      var k: nat :| k <= c.keyVersion && g.recipientKeyId == KeyId(c.nodeId, k);
      assert k < version;
    }
    KeepsCurrentKeys(v, v', c, version);
  }

  lemma KeepsCurrentKeys(v: Verifier, v': Verifier, c: Config, version: nat)
    requires AllCurrent(v, c) && version >= c.keyVersion && Subset(v, v') && v'.epoch == v.epoch
    ensures AllCurrent(v', c.(keyVersion := version))
  {
    forall id | id in v'.accepted ensures Current(v', c.(keyVersion := version), v'.accepted[id].grant) {
      var k: nat :| k <= c.keyVersion && v.accepted[id].grant.recipientKeyId == KeyId(c.nodeId, k);
      assert k <= version;
    }
  }

  /** A registration, policy or rotation in force. */
  lemma ConfigBodyStep(w: V.World, c: Config, e: Event)
    requires w.process.Some? && AllCurrent(w.process.value, c) && e.Document? && c.pin.Some?
    requires e.body.RegistrationDoc? || e.body.PolicyDoc? || e.body.RotationDoc?
    requires BodyEvent(c, e).Some? && V.Enabled(w, BodyEvent(c, e).value)
    ensures var v, x := w.process.value, V.Step(w, BodyEvent(c, e).value);
            && x.process.Some? && AllCurrent(x.process.value, NextConfig(c, e)) && x.process.value.epoch == v.epoch
            && Subset(v, x.process.value) && DropsOnlyOutdated(v, x.process.value, NextConfig(c, e))
  {
    var x := BodyEvent(c, e).value;
    WithdrawStep(w, x);
    var v, v' := w.process.value, V.Step(w, x).process.value;
    match e.body {
      case RegistrationDoc(r) => RegistrationWithdraws(v, v', c, r);
      case PolicyDoc(p) => PolicyWithdraws(v, v', c, p);
      case RotationDoc(_, version, _) => RotationWithdraws(v, v', c, version);
    }
  }

  lemma GrantBodyStep(w: V.World, c: Config, e: Event)
    requires w.process.Some? && AllCurrent(w.process.value, c) && e.Document? && c.pin.Some? && e.body.GrantDoc?
    requires BodyEvent(c, e).Some? && V.Enabled(w, BodyEvent(c, e).value)
    ensures var v, x := w.process.value, V.Step(w, BodyEvent(c, e).value);
            && x.process.Some? && AllCurrent(x.process.value, c) && x.process.value.epoch == v.epoch
            && v.accepted.Keys <= x.process.value.accepted.Keys
  {
    var x := BodyEvent(c, e).value;
    DeliverStep(w, x, c);
    AcceptGrantFacts(w.process.value, x.g, x.digest, x.nodeId, x.keyId, x.p, x.reg, x.boot);
  }

  /** What the body of a document does once the epoch is observed. */
  lemma BodyStep(w: V.World, c: Config, e: Event)
    requires w.process.Some? && AllCurrent(w.process.value, c) && e.Document? && c.pin.Some?
    requires BodyEvent(c, e).Some? && V.Enabled(w, BodyEvent(c, e).value)
    ensures var v, x := w.process.value, V.Step(w, BodyEvent(c, e).value);
            && x.process.Some? && AllCurrent(x.process.value, NextConfig(c, e)) && x.process.value.epoch == v.epoch
            && (!e.body.GrantDoc? ==> Subset(v, x.process.value))
            && (!e.body.ReplyDoc? && !e.body.RevocationDoc? ==>
                  DropsOnlyOutdated(v, x.process.value, NextConfig(c, e)))
  {
    if e.body.GrantDoc? {
      GrantBodyStep(w, c, e);
    } else if e.body.ReplyDoc? || e.body.RevocationDoc? {
      WorldStep(w, BodyEvent(c, e).value);
    } else {
      ConfigBodyStep(w, c, e);
    }
  }

  lemma ConfigRises(c: Config, e: Event)
    requires e.Document? && c.pin.Some?
    ensures Later(c, NextConfig(c, e))
  {
  }

  /** Every step keeps all accepted grants current: in particular they carry
      exactly the epoch the verifier observed. Versions only rise, and a grant
      that leaves other than by reply, revocation or consumption is outdated. */
  lemma StepKeepsCurrent(b: Broker, e: Event)
    requires Enabled(b, e) && AllCurrent(Ver(b), b.c)
    ensures var x := Step(b, e);
            && x.w.process.Some? && AllCurrent(Ver(x), x.c) && Later(b.c, x.c) && EpochRises(Ver(b), Ver(x))
            && (!(e.Document? && e.body.GrantDoc?) ==> Subset(Ver(b), Ver(x)))
            && (!e.Local? && !(e.Document? && (e.body.ReplyDoc? || e.body.RevocationDoc?)) ==>
                  forall id | id in Ver(b).accepted && id !in Ver(x).accepted ::
                    Outdated(Ver(x), x.c, Ver(b).accepted[id].grant))
  {
    match e {
      case Document(epoch, _, _, _, _, epochOrder, _) =>
        if !RefusedEarly(b.c, e) {
          DocumentStep(b, e);
        }
      case PinIssuer(epoch, order) => ObserveStep(b.w, b.c, epoch, order);
      case RecoveryPin(_) =>
      case Local(x) => WorldStep(b.w, x);
    }
  }

  lemma DocumentStep(b: Broker, e: Event)
    requires Enabled(b, e) && AllCurrent(Ver(b), b.c) && e.Document? && !RefusedEarly(b.c, e)
    ensures var x := Step(b, e);
            && x.w.process.Some? && AllCurrent(Ver(x), x.c) && Later(b.c, x.c) && EpochRises(Ver(b), Ver(x))
            && (!e.body.GrantDoc? ==> Subset(Ver(b), Ver(x)))
            && (!e.body.ReplyDoc? && !e.body.RevocationDoc? ==>
                  forall id | id in Ver(b).accepted && id !in Ver(x).accepted ::
                    Outdated(Ver(x), x.c, Ver(b).accepted[id].grant))
  {
    var c := Advanced(b.c, e.epoch);
    var w := V.Step(b.w, Observe(c.pin.value, e.epochOrder));
    ObserveStep(b.w, c, c.pin.value, e.epochOrder);
    ConfigRises(c, e);
    if BodyEvent(c, e).Some? {
      BodyStep(w, c, e);
    } else {
      QuietStep(w.process.value, c, e);
    }
    forall g: Grant | Outdated(w.process.value, c, g) ensures Outdated(Ver(Step(b, e)), NextConfig(c, e), g) {
      StaysOutdated(w.process.value, Ver(Step(b, e)), c, NextConfig(c, e), g);
    }
  }

  /** A document that asks nothing of the verifier changes at most the key. */
  lemma QuietStep(v: Verifier, c: Config, e: Event)
    requires AllCurrent(v, c) && e.Document? && c.pin.Some? && BodyEvent(c, e).None?
    ensures AllCurrent(v, NextConfig(c, e))
  {
    if e.body.RotationDoc? && NextConfig(c, e) != c {
      KeepsCurrentKeys(v, v, c, e.body.version);
    }
  }

  /** A document of an older epoch only shrinks authority: it changes no
      configuration, adds no grant and removes no tombstone. */
  lemma StaleOnlyShrinks(b: Broker, e: Event)
    requires Enabled(b, e) && AllCurrent(Ver(b), b.c)
    requires e.Document? && b.c.pin.Some? && e.epoch < b.c.pin.value
    ensures var x := Step(b, e);
            && x.w.process.Some? && x.c == b.c && Subset(Ver(b), Ver(x))
            && Ver(b).revocations.marks.retained.Keys <= Ver(x).revocations.marks.retained.Keys
  {
    var c := Advanced(b.c, e.epoch);
    var observe := Observe(c.pin.value, e.epochOrder);
    ObserveStep(b.w, c, c.pin.value, e.epochOrder);
    V.OtherMemory(b.w, observe);
    if BodyEvent(c, e).Some? {
      WorldStep(V.Step(b.w, observe), BodyEvent(c, e).value);
      V.RevokeInForce(V.Step(b.w, observe), BodyEvent(c, e).value);
    }
  }

  // ---- Runs ----------------------------------------------------------------------------------

  /** Signed ids fix the grant they name. */
  predicate Genuine(e: Event, content: Id -> Grant) {
    e.Document? && e.body.GrantDoc? ==> content(e.body.g.id) == e.body.g
  }

  /** A run of one process, from a start with nothing accepted. */
  ghost predicate IsRun(bs: seq<Broker>, es: seq<Event>, content: Id -> Grant) {
    && |bs| == |es| + 1 && bs[0].w.process.Some? && Ver(bs[0]).accepted == map[]
    && forall i | 0 <= i < |es| ::
         Enabled(bs[i], es[i]) && Genuine(es[i], content) && bs[i + 1] == Step(bs[i], es[i])
  }

  predicate Contents(v: Verifier, content: Id -> Grant) {
    forall id | id in v.accepted :: v.accepted[id].grant == content(id)
  }

  lemma StepKeepsContents(b: Broker, e: Event, content: Id -> Grant)
    requires Enabled(b, e) && AllCurrent(Ver(b), b.c) && Genuine(e, content) && Contents(Ver(b), content)
    ensures Step(b, e).w.process.Some? && Contents(Ver(Step(b, e)), content)
  {
    StepKeepsCurrent(b, e);
    if e.Document? && e.body.GrantDoc? && !RefusedEarly(b.c, e) {
      var c := Advanced(b.c, e.epoch);
      ObserveStep(b.w, c, c.pin.value, e.epochOrder);
      var w := V.Step(b.w, Observe(c.pin.value, e.epochOrder));
      if BodyEvent(c, e).Some? {
        var x := BodyEvent(c, e).value;
        AcceptGrantFacts(w.process.value, x.g, x.digest, x.nodeId, x.keyId, x.p, x.reg, x.boot);
      }
    }
  }

  lemma {:induction false} RunCurrent(bs: seq<Broker>, es: seq<Event>, content: Id -> Grant, i: nat)
    requires IsRun(bs, es, content) && i < |bs|
    ensures bs[i].w.process.Some? && AllCurrent(Ver(bs[i]), bs[i].c) && Contents(Ver(bs[i]), content)
  {
    if i > 0 {
      RunCurrent(bs, es, content, i - 1);
      StepKeepsCurrent(bs[i - 1], es[i - 1]);
      StepKeepsContents(bs[i - 1], es[i - 1], content);
    }
  }

  /** In every reachable state all accepted grants carry exactly the epoch the
      verifier observed. */
  lemma EpochExact(bs: seq<Broker>, es: seq<Event>, content: Id -> Grant, i: nat, id: Id)
    requires IsRun(bs, es, content) && i < |bs| && bs[i].w.process.Some? && id in Ver(bs[i]).accepted
    ensures Ver(bs[i]).epoch == Some(Ver(bs[i]).accepted[id].grant.issuerEpoch)
  {
    RunCurrent(bs, es, content, i);
  }

  /** An outdated grant that is not held is not accepted by any step. */
  lemma StaysOut(b: Broker, e: Event, content: Id -> Grant, id: Id)
    requires Enabled(b, e) && AllCurrent(Ver(b), b.c) && Genuine(e, content)
    requires id !in Ver(b).accepted && Outdated(Ver(b), b.c, content(id))
    ensures var x := Step(b, e);
            x.w.process.Some? && id !in Ver(x).accepted && Outdated(Ver(x), x.c, content(id))
  {
    StepKeepsCurrent(b, e);
    StaysOutdated(Ver(b), Ver(Step(b, e)), b.c, Step(b, e).c, content(id));
    if e.Document? && e.body.GrantDoc? && !RefusedEarly(b.c, e) {
      var c := Advanced(b.c, e.epoch);
      ObserveStep(b.w, c, c.pin.value, e.epochOrder);
      var w := V.Step(b.w, Observe(c.pin.value, e.epochOrder));
      if BodyEvent(c, e).Some? {
        StaysOutdated(Ver(b), w.process.value, b.c, c, content(id));
        DeliveryRefused(w, c, e, content, id);
      }
    }
  }

  lemma DeliveryRefused(w: V.World, c: Config, e: Event, content: Id -> Grant, id: Id)
    requires w.process.Some? && e.Document? && e.body.GrantDoc? && c.pin.Some? && Genuine(e, content)
    requires BodyEvent(c, e).Some? && V.Enabled(w, BodyEvent(c, e).value)
    requires id !in w.process.value.accepted && Outdated(w.process.value, c, content(id))
    ensures V.Step(w, BodyEvent(c, e).value).process.Some?
    ensures id !in V.Step(w, BodyEvent(c, e).value).process.value.accepted
  {
    var x := BodyEvent(c, e).value;
    AcceptGrantFacts(w.process.value, x.g, x.digest, x.nodeId, x.keyId, x.p, x.reg, x.boot);
    if x.g.id == id && w.process.value.epoch == Some(x.g.issuerEpoch) {
      OutdatedNotBound(w.process.value, c, x.g);
    }
  }

  lemma {:induction false} OutdatedForGood(
    bs: seq<Broker>, es: seq<Event>, content: Id -> Grant, i: nat, j: nat, id: Id)
    requires IsRun(bs, es, content) && i <= j < |bs| && bs[i].w.process.Some?
    requires id !in Ver(bs[i]).accepted && Outdated(Ver(bs[i]), bs[i].c, content(id))
    ensures bs[j].w.process.Some? && id !in Ver(bs[j]).accepted && Outdated(Ver(bs[j]), bs[j].c, content(id))
  {
    if i < j {
      OutdatedForGood(bs, es, content, i, j - 1, id);
      RunCurrent(bs, es, content, j - 1);
      StaysOut(bs[j - 1], es[j - 1], content, id);
    }
  }

  /** A grant withdrawn by a new epoch, key, registration or policy is never
      accepted again in that process, even after its retirement record was
      evicted and however often it is delivered again. */
  lemma NeverAcceptedAgain(bs: seq<Broker>, es: seq<Event>, content: Id -> Grant, i: nat, j: nat, id: Id)
    requires IsRun(bs, es, content) && i < j < |bs|
    requires bs[i].w.process.Some? && id in Ver(bs[i]).accepted
    requires bs[i + 1].w.process.Some? && id !in Ver(bs[i + 1]).accepted
    requires !es[i].Local? && !(es[i].Document? && (es[i].body.ReplyDoc? || es[i].body.RevocationDoc?))
    ensures bs[j].w.process.Some? && id !in Ver(bs[j]).accepted
  {
    RunCurrent(bs, es, content, i);
    StepKeepsCurrent(bs[i], es[i]);
    OutdatedForGood(bs, es, content, i + 1, j, id);
  }

  /** What is handed out is bound to the policy and registration in force at
      that moment, and only to the workload the grant names. */
  lemma HandedOutMatches(bs: seq<Broker>, es: seq<Event>, content: Id -> Grant, i: nat)
    requires IsRun(bs, es, content) && i < |es| && es[i].Local? && V.HandsOut(bs[i].w, es[i].e)
    ensures bs[i].w.process.Some? && es[i].e.id in Ver(bs[i]).accepted
    ensures var g, c, a := Ver(bs[i]).accepted[es[i].e.id].grant, bs[i].c, es[i].e.a;
            && g == content(es[i].e.id) && Ver(bs[i]).epoch == Some(g.issuerEpoch)
            && c.policy.Some? && Allows(c.policy.value, g)
            && g.workloadId in c.registrations && Describes(c.registrations[g.workloadId], g)
            && a.nodeId == c.nodeId && a.workloadId == g.workloadId && a.unit == g.unit
            && a.invocationId == g.invocationId && a.operation == "consume:" + g.id
  {
    RunCurrent(bs, es, content, i);
  }

  /** A revocation of this node's grant is honoured from any epoch: the grant is
      gone and its tombstone in force, whether or not it could be written. */
  lemma RevocationFromAnyEpoch(b: Broker, e: Event)
    requires Enabled(b, e) && e.Document? && !RefusedEarly(b.c, e)
    requires e.body.RevocationDoc? && e.body.nodeId == b.c.nodeId
    ensures var x := Step(b, e);
            && x.w.process.Some? && e.body.id !in Ver(x).accepted
            && e.body.id in Ver(x).revocations.marks.retained
            && Ver(x).revocations.marks.retained[e.body.id] >= e.body.until
  {
    var c := Advanced(b.c, e.epoch);
    var observe := Observe(c.pin.value, e.epochOrder);
    WithdrawStep(b.w, observe);
    WorldStep(V.Step(b.w, observe), BodyEvent(c, e).value);
    V.RevokeInForce(V.Step(b.w, observe), BodyEvent(c, e).value);
  }

  // ---- The key of accepted grants -------------------------------------------------------------

  predicate KeyExact(v: Verifier, c: Config) {
    forall id | id in v.accepted :: v.accepted[id].grant.recipientKeyId == KeyId(c.nodeId, c.keyVersion)
  }

  /** An interrupted rotation while a grant that survives the document's epoch
      is held. */
  predicate LeavesOldKey(b: Broker, e: Event)
    requires b.w.process.Some?
  {
    && e.Document? && !RefusedEarly(b.c, e) && e.epoch >= b.c.pin.value && e.body.RotationDoc?
    && e.body.nodeId == b.c.nodeId && Interrupted(b.c, e.body)
    && exists id :: id in Ver(b).accepted && Ver(b).accepted[id].grant.issuerEpoch >= e.epoch
  }

  /** What remains after observing an epoch. */
  lemma ObserveKeeps(w: V.World, c: Config, epoch: nat, order: seq<Id>, id: Id)
    requires w.process.Some? && AllCurrent(w.process.value, c) && V.Enabled(w, Observe(epoch, order))
    ensures V.Step(w, Observe(epoch, order)).process.Some?
    ensures id in V.Step(w, Observe(epoch, order)).process.value.accepted
      <==> id in w.process.value.accepted && w.process.value.accepted[id].grant.issuerEpoch >= epoch
  {
    WithdrawStep(w, Observe(epoch, order));
  }

  lemma KeyExactAdvanced(v: Verifier, c: Config, epoch: nat)
    requires c.pin.Some?
    ensures KeyExact(v, Advanced(c, epoch)) == KeyExact(v, c)
    ensures AllCurrent(v, c) ==> AllCurrent(v, Advanced(c, epoch))
  {
  }

  /** The same on values: what observing, then the rotation, leave. */
  lemma RotationKeepsExact(v: Verifier, v1: Verifier, v2: Verifier, c: Config, body: Body, epoch: nat)
    requires KeyExact(v, c) && body.RotationDoc? && Subset(v, v1) && Subset(v1, v2)
    requires forall id :: id in v1.accepted <==> id in v.accepted && v.accepted[id].grant.issuerEpoch >= epoch
    requires body.version == c.keyVersion + 1 || body.version == c.keyVersion
    requires if Interrupted(c, body) then v2.accepted == v1.accepted
             else v2.accepted.Keys == v1.accepted.Keys - HitIds(v1, NewKey(KeyId(c.nodeId, body.version)))
    ensures KeyExact(v2, c.(keyVersion := body.version))
      <==> !(Interrupted(c, body) && exists id :: id in v.accepted && v.accepted[id].grant.issuerEpoch >= epoch)
  {
    if Interrupted(c, body) && KeyId(c.nodeId, c.keyVersion) == KeyId(c.nodeId, body.version) {
      KeyIdInjective(c.nodeId, c.keyVersion, body.version);
      assert false;
    }
  }

  lemma RotationStep(b: Broker, e: Event)
    requires Enabled(b, e) && AllCurrent(Ver(b), b.c) && KeyExact(Ver(b), b.c)
    requires e.Document? && e.body.RotationDoc?
    ensures Step(b, e).w.process.Some? && (KeyExact(Ver(Step(b, e)), Step(b, e).c) <==> !LeavesOldKey(b, e))
  {
    hide V.Step, V.Enabled, KeyExact, Current, KeyId;
    if !RefusedEarly(b.c, e) {
      var c := Advanced(b.c, e.epoch);
      var w := V.Step(b.w, Observe(c.pin.value, e.epochOrder));
      KeyExactAdvanced(Ver(b), b.c, e.epoch);
      ObserveStep(b.w, c, c.pin.value, e.epochOrder);
      forall id ensures id in w.process.value.accepted
                  <==> id in Ver(b).accepted && Ver(b).accepted[id].grant.issuerEpoch >= c.pin.value
      {
        ObserveKeeps(b.w, c, c.pin.value, e.epochOrder, id);
      }
      if BodyEvent(c, e).Some? {
        WithdrawStep(w, BodyEvent(c, e).value);
      }
      if e.epoch >= b.c.pin.value && Rotates(c, e.body.nodeId, e.body.version) {
        RotationKeepsExact(Ver(b), w.process.value, Ver(Step(b, e)), c, e.body, c.pin.value);
      } else {
        FewerKeepExact(Ver(b), w.process.value, b.c, c);
      }
    }
  }

  lemma FewerKeepExact(v: Verifier, v': Verifier, c: Config, c': Config)
    requires KeyExact(v, c) && Subset(v, v') && c'.nodeId == c.nodeId && c'.keyVersion == c.keyVersion
    ensures KeyExact(v', c')
  {
  }

  /** A newly accepted grant names the current key. */
  lemma DeliverKeepsExact(w: V.World, x: V.Event, c: Config)
    requires V.Enabled(w, x) && w.process.Some? && x.Delivers? && x.keyId == KeyId(c.nodeId, c.keyVersion)
    requires KeyExact(w.process.value, c)
    ensures V.Step(w, x).process.Some? && KeyExact(V.Step(w, x).process.value, c)
  {
    hide KeyId;
    AcceptGrantFacts(w.process.value, x.g, x.digest, x.nodeId, x.keyId, x.p, x.reg, x.boot);
  }

  /** The body of any other document, once the epoch is observed. */
  lemma BodyKeepsExact(w: V.World, c: Config, e: Event)
    requires w.process.Some? && e.Document? && !e.body.RotationDoc? && c.pin.Some? && KeyExact(w.process.value, c)
    requires BodyEvent(c, e).Some? && V.Enabled(w, BodyEvent(c, e).value)
    ensures var x := V.Step(w, BodyEvent(c, e).value);
            x.process.Some? && KeyExact(x.process.value, NextConfig(c, e))
  {
    hide V.Step, V.Enabled, KeyId, KeyExact;
    var x := BodyEvent(c, e).value;
    if e.body.GrantDoc? {
      DeliverKeepsExact(w, x, c);
    } else {
      WorldStep(w, x);
      FewerKeepExact(w.process.value, V.Step(w, x).process.value, c, NextConfig(c, e));
    }
  }

  lemma OtherDocumentKeepsExact(b: Broker, e: Event)
    requires Enabled(b, e) && AllCurrent(Ver(b), b.c) && KeyExact(Ver(b), b.c)
    requires e.Document? && !e.body.RotationDoc?
    ensures Step(b, e).w.process.Some? && KeyExact(Ver(Step(b, e)), Step(b, e).c)
  {
    hide V.Step, V.Enabled, KeyExact, Current, KeyId;
    if !RefusedEarly(b.c, e) {
      var c := Advanced(b.c, e.epoch);
      var w := V.Step(b.w, Observe(c.pin.value, e.epochOrder));
      KeyExactAdvanced(Ver(b), b.c, e.epoch);
      ObserveStep(b.w, c, c.pin.value, e.epochOrder);
      FewerKeepExact(Ver(b), w.process.value, c, c);
      if BodyEvent(c, e).Some? {
        BodyKeepsExact(w, c, e);
      } else {
        FewerKeepExact(w.process.value, w.process.value, c, NextConfig(c, e));
      }
    }
  }

  /** Every step keeps accepted grants on exactly the current key, if and only if
      it is not an interrupted rotation while a grant is held that survives the
      document's epoch. */
  lemma InterruptedRotationExactly(b: Broker, e: Event)
    requires Enabled(b, e) && AllCurrent(Ver(b), b.c) && KeyExact(Ver(b), b.c)
    ensures Step(b, e).w.process.Some? && (KeyExact(Ver(Step(b, e)), Step(b, e).c) <==> !LeavesOldKey(b, e))
  {
    hide V.Step, V.Enabled, KeyExact, Current, KeyId, LeavesOldKey;
    OnlyRotations(b, e);
    match e {
      case Document(_, body, _, _, _, _, _) =>
        if body.RotationDoc? { RotationStep(b, e); } else { OtherDocumentKeepsExact(b, e); }
      case PinIssuer(epoch, order) =>
        ObserveStep(b.w, b.c, epoch, order);
        FewerKeepExact(Ver(b), Ver(Step(b, e)), b.c, Step(b, e).c);
      case RecoveryPin(generation) => KeyExactAdvanced(Ver(b), b.c, generation);
      case Local(x) =>
        WorldStep(b.w, x);
        FewerKeepExact(Ver(b), Ver(Step(b, e)), b.c, b.c);
    }
  }

  lemma OnlyRotations(b: Broker, e: Event)
    requires b.w.process.Some?
    ensures !(e.Document? && e.body.RotationDoc?) ==> !LeavesOldKey(b, e)
  {
  }

  /** Delivering the active rotation again drops every grant for an older key,
      whatever was interrupted before. */
  lemma RedeliveryRepairs(b: Broker, e: Event)
    requires Enabled(b, e) && AllCurrent(Ver(b), b.c)
    requires e.Document? && !RefusedEarly(b.c, e) && e.epoch >= b.c.pin.value
    requires e.body.RotationDoc? && e.body.nodeId == b.c.nodeId && e.body.version == b.c.keyVersion
    ensures Step(b, e).w.process.Some? && KeyExact(Ver(Step(b, e)), Step(b, e).c)
    ensures Step(b, e).c.keyVersion == b.c.keyVersion
  {
    hide V.Step, V.Enabled, Current, KeyId;
    var c := Advanced(b.c, e.epoch);
    var w := V.Step(b.w, Observe(c.pin.value, e.epochOrder));
    KeyExactAdvanced(Ver(b), b.c, e.epoch);
    ObserveStep(b.w, c, c.pin.value, e.epochOrder);
    WithdrawStep(w, BodyEvent(c, e).value);
  }

  /** From any state on which the key is exact, it stays so until a rotation is
      interrupted. */
  lemma {:induction false} KeyStaysExact(bs: seq<Broker>, es: seq<Event>, content: Id -> Grant, i: nat, j: nat)
    requires IsRun(bs, es, content) && i <= j < |bs| && bs[i].w.process.Some? && KeyExact(Ver(bs[i]), bs[i].c)
    requires forall k | i <= k < j :: bs[k].w.process.Some? && !LeavesOldKey(bs[k], es[k])
    ensures bs[j].w.process.Some? && KeyExact(Ver(bs[j]), bs[j].c)
    decreases j
  {
    hide V.Step, V.Enabled, KeyExact, Current, KeyId, LeavesOldKey, Enabled, Step;
    if i < j {
      KeyStaysExact(bs, es, content, i, j - 1);
      RunCurrent(bs, es, content, j - 1);
      InterruptedRotationExactly(bs[j - 1], es[j - 1]);
    }
  }

  /** Over every run without an interrupted rotation, and over every run from the
      redelivery of an interrupted one on, accepted grants carry exactly the
      current key. */
  lemma AcceptedCarryCurrentKey(bs: seq<Broker>, es: seq<Event>, content: Id -> Grant, i: nat, j: nat, id: Id)
    requires IsRun(bs, es, content) && i <= j < |bs| && bs[i].w.process.Some? && bs[j].w.process.Some?
    requires i > 0 ==>
               var c, e := bs[i - 1].c, es[i - 1];
               && e.Document? && !RefusedEarly(c, e) && e.epoch >= c.pin.value
               && e.body.RotationDoc? && e.body.nodeId == c.nodeId && e.body.version == c.keyVersion
    requires forall k | i <= k < j :: bs[k].w.process.Some? && !LeavesOldKey(bs[k], es[k])
    requires id in Ver(bs[j]).accepted
    ensures Ver(bs[j]).accepted[id].grant.recipientKeyId == KeyId(bs[j].c.nodeId, bs[j].c.keyVersion)
  {
    hide V.Step, V.Enabled, Current, KeyId, LeavesOldKey, Enabled, Step;
    if i > 0 {
      RunCurrent(bs, es, content, i - 1);
      RedeliveryRepairs(bs[i - 1], es[i - 1]);
    }
    KeyStaysExact(bs, es, content, i, j);
  }
}
