/** The browser dispatcher thread interleaved with its actors. Every atomic
    read, lock section and atomic update is one step, so a run is any
    interleaving: when the class-wide stop is issued, which records recovery
    touches, and when a record is closed. */
module Dispatcher {
  import C = ActorCleanup

  type Op = string

  const MAX_ACTORS: nat := 16

  /** How an unfinished operation was closed. */
  datatype Closure = Open | Reconciled | TimedOut

  datatype Record = Record(grantId: string, account: string, unit: string, closure: Closure)

  /** `Live` may start a helper once it entered the helper stage and a browser
      once it is connected to the supervisor; `Cleaned` has tried to stop them;
      the last two stages are the steps of dropping the slot before the final
      send. */
  datatype Stage =
    Live(attempted: bool, connected: bool) | Cleaned(stopped: bool, revoked: bool) | Unregistered | Released

  datatype Actor = Actor(op: Op, grantId: string, stage: Stage)

  /** Where the dispatcher thread stands. */
  datatype Pc =
    | Idle
    | StartupStopped
    | Ready
    | ModeChosen(full: bool)
    | Snapshotted(full: bool, snapshot: set<Op>)
    | Selected(full: bool, records: set<Op>)
    | Recovering(rest: set<Op>)
    | Revoking(op: Op, proved: bool, rest: set<Op>)
    | Reconciling(op: Op, proved: bool, revoked: bool, rest: set<Op>)
    | Dispatching
    | Admitting
    | Reserved(op: Op, grantId: string)
    | Registered(op: Op, grantId: string)
    | Counted(op: Op, grantId: string)

  /** `helpers` and `browsers` are the operations that have such a process,
      `stopped` those that were pending at a successful class-wide stop, and
      `revoked` those whose account was revoked since their record was made. */
  datatype State = State(
    journal: map<Op, Record>, fenced: bool,
    running: set<Op>, active: int, actors: map<nat, Actor>,
    runningGrants: set<string>, finished: seq<string>,
    terminated: set<Op>, recovered: bool, pc: Pc,
    helpers: set<Op>, browsers: set<Op>, stopped: set<Op>, revoked: set<Op>)

  function Alive(s: State): set<Op> { s.helpers + s.browsers }

  /** Recovery and maintenance, in the dispatcher thread. */
  datatype RecoveryEvent =
    | StartupStop(ok: bool) | Remember | Begin | ChooseMode | SnapshotRunning | SnapshotPending
    | ClassStop(ok: bool) | Examine(op: Op, began: bool) | RevokeAccount(ok: bool) | Reconcile(timely: bool)
    | EndRecovery | Prune(ops: set<Op>) | ReleaseExpired(ops: set<Op>)

  /** Starting actors, in the dispatcher thread; the fence is set from anywhere. */
  datatype DispatchEvent =
    | Drain | Admit | Reserve(op: Op, r: Record, persisted: bool) | Register | Count | Launch(slot: nat)
    | EndDispatch | SetFence(fenced: bool)

  /** An actor that panics skips straight to `Unregister`. */
  datatype ActorEvent =
    | Attempt | StartHelper | Connect | StartBrowser
    | Cleanup(identified: bool, verified: bool, results: C.Results)
    | CloseOwn | Unregister | Release | Send

  datatype Event = OfRecovery(r: RecoveryEvent) | OfDispatch(d: DispatchEvent) | OfActor(slot: nat, a: ActorEvent)

  function Pending(journal: map<Op, Record>): set<Op> { set op | op in journal && journal[op].closure.Open? }

  /** The journal refuses a known operation, a used grant, and a second
      unfinished operation of the same account or unit. */
  predicate MayReserve(s: State, op: Op, r: Record) {
    && op !in s.journal && r.closure.Open?
    && forall o | o in s.journal ::
         s.journal[o].grantId != r.grantId
         && (s.journal[o].closure.Open? ==> s.journal[o].account != r.account && s.journal[o].unit != r.unit)
  }

  predicate RecoveryEnabled(s: State, e: RecoveryEvent) {
    match e
    case StartupStop(_) => s.pc.Idle? && !s.recovered
    case Remember => s.pc.StartupStopped?
    case Begin => s.pc.Idle? && s.recovered
    case ChooseMode => s.pc.Ready?
    case SnapshotRunning => s.pc.ModeChosen?
    case SnapshotPending => s.pc.Snapshotted?
    case ClassStop(_) => s.pc.Selected? && s.pc.full && s.pc.records != {}
    case Examine(op, _) => s.pc.Recovering? && op in s.pc.rest
    case RevokeAccount(_) => s.pc.Revoking?
    case Reconcile(_) => s.pc.Reconciling?
    case EndRecovery => s.pc.Recovering? || s.pc.Ready? || (s.pc.Selected? && s.pc.records == {})
    case Prune(ops) => s.pc.Idle? && forall op | op in ops && op in s.journal :: !s.journal[op].closure.Open?
    case ReleaseExpired(_) => s.pc.Idle?
  }

  predicate DispatchEnabled(s: State, e: DispatchEvent) {
    match e
    case Drain => s.pc.Dispatching? && s.finished != []
    case Admit => s.pc.Dispatching? && !s.fenced && s.active < MAX_ACTORS
    case Reserve(op, r, _) => s.pc.Admitting? && MayReserve(s, op, r) && r.grantId !in s.runningGrants
    case Register => s.pc.Reserved?
    case Count => s.pc.Registered?
    case Launch(slot) => s.pc.Counted? && slot !in s.actors
    case EndDispatch => s.pc.Dispatching? || s.pc.Admitting?
    case SetFence(_) => true
  }

  predicate ActorEnabled(stage: Stage, e: ActorEvent) {
    match e
    case Attempt => stage.Live?
    case StartHelper => stage.Live? && stage.attempted
    case Connect => stage.Live?
    case StartBrowser => stage.Live? && stage.connected
    case Cleanup(identified, verified, _) =>
      stage.Live? && (identified ==> stage.attempted) && (verified ==> stage.connected)
    case CloseOwn => stage.Cleaned?
    case Unregister => stage.Live? || stage.Cleaned?
    case Release => stage.Unregistered?
    case Send => stage.Released?
  }

  predicate Enabled(s: State, e: Event) {
    match e
    case OfRecovery(r) => RecoveryEnabled(s, r)
    case OfDispatch(d) => DispatchEnabled(s, d)
    case OfActor(slot, a) => slot in s.actors && ActorEnabled(s.actors[slot].stage, a)
  }

  /** `reconcile`: close only when both observations hold. */
  function Closed(journal: map<Op, Record>, op: Op, revoked: bool, processesTerminated: bool): map<Op, Record> {
    if op in journal && journal[op].closure.Open? && revoked && processesTerminated
    then journal[op := journal[op].(closure := Reconciled)] else journal
  }

  function Timed(journal: map<Op, Record>, ops: set<Op>): map<Op, Record> {
    map op | op in journal ::
      if op in ops && journal[op].closure.Open? then journal[op].(closure := TimedOut) else journal[op]
  }

  function Staged(actors: map<nat, Actor>, slot: nat, stage: Stage): map<nat, Actor>
    requires slot in actors
  {
    actors[slot := actors[slot].(stage := stage)]
  }

  /** A class-wide stop that succeeded ends every helper and browser. */
  function Stopped(s: State): State { s.(helpers := {}, browsers := {}, stopped := s.stopped + Pending(s.journal)) }

  function RecoveryStep(s: State, e: RecoveryEvent): State
    requires RecoveryEnabled(s, e)
  {
    match e
    case StartupStop(ok) => if ok then Stopped(s).(pc := StartupStopped) else s
    case Remember => s.(recovered := true, terminated := s.terminated + Pending(s.journal), pc := Ready)
    case Begin => s.(pc := Ready)
    case ChooseMode => s.(pc := ModeChosen(s.active == 0))
    case SnapshotRunning => s.(pc := Snapshotted(s.pc.full, s.running))
    case SnapshotPending =>
      var records := Pending(s.journal) - s.pc.snapshot;
      s.(pc := if s.pc.full || records == {} then Selected(s.pc.full, records) else Recovering(records))
    case ClassStop(ok) =>
      if ok then Stopped(s).(terminated := s.terminated + s.pc.records, pc := Recovering(s.pc.records))
      else s.(pc := Dispatching)
    case Examine(op, began) =>
      var rest := s.pc.rest - {op};
      s.(pc := if began then Revoking(op, op in s.terminated, rest) else Recovering(rest))
    case RevokeAccount(ok) =>
      s.(pc := Reconciling(s.pc.op, s.pc.proved, ok, s.pc.rest),
         revoked := if ok then s.revoked + {s.pc.op} else s.revoked)
    case Reconcile(timely) =>
      s.(journal := if timely then Closed(s.journal, s.pc.op, s.pc.revoked, s.pc.proved) else s.journal,
         pc := Recovering(s.pc.rest))
    case EndRecovery => s.(pc := Dispatching)
    case Prune(ops) => s.(journal := s.journal - ops)
    case ReleaseExpired(ops) => s.(journal := Timed(s.journal, ops))
  }

  function DispatchStep(s: State, e: DispatchEvent): State
    requires DispatchEnabled(s, e)
  {
    match e
    case Drain => s.(runningGrants := s.runningGrants - {s.finished[0]}, finished := s.finished[1..])
    case Admit => s.(pc := Admitting)
    case Reserve(op, r, persisted) =>
      s.(journal := s.journal[op := r], revoked := s.revoked - {op}, fenced := s.fenced || !persisted,
         pc := if persisted then Reserved(op, r.grantId) else Dispatching)
    case Register =>
      s.(runningGrants := s.runningGrants + {s.pc.grantId}, running := s.running + {s.pc.op},
         pc := Registered(s.pc.op, s.pc.grantId))
    case Count => s.(active := s.active + 1, pc := Counted(s.pc.op, s.pc.grantId))
    case Launch(slot) => s.(actors := s.actors[slot := Actor(s.pc.op, s.pc.grantId, FRESH)], pc := Dispatching)
    case EndDispatch => s.(pc := if s.pc.Admitting? then Dispatching else Idle)
    case SetFence(fenced) => s.(fenced := fenced)
  }

  const FRESH := Live(false, false)

  /** The actor's processes. */
  function Own(s: State, op: Op): C.Processes { C.Processes(op in s.helpers, op in s.browsers) }

  function Facts(stage: Stage, identified: bool, verified: bool): C.Facts
    requires stage.Live?
  {
    C.Facts(identified, stage.attempted, verified, stage.connected)
  }

  /** `run_cleanup` on the actor's own facts: which processes it ends is decided
      by the requests, what it may claim by `RunCleanup`. */
  function CleanUp(s: State, slot: nat, f: C.Facts, r: C.Results): State
    requires slot in s.actors
  {
    var op := s.actors[slot].op;
    var left, out := C.Left(f, r, Own(s, op)), C.RunCleanup(f, r);
    s.(actors := Staged(s.actors, slot, Cleaned(out.helperStopped && out.browserStopped, out.websiteRevoked)),
       helpers := if left.helper then s.helpers else s.helpers - {op},
       browsers := if left.browser then s.browsers else s.browsers - {op},
       revoked := if out.websiteRevoked then s.revoked + {op} else s.revoked)
  }

  /** An actor starts processes, cleans up, closes its own record and drops its
      slot in three steps. */
  function ActorStep(s: State, slot: nat, e: ActorEvent): State
    requires slot in s.actors && ActorEnabled(s.actors[slot].stage, e)
  {
    var a := s.actors[slot];
    match e
    case Attempt => s.(actors := Staged(s.actors, slot, a.stage.(attempted := true)))
    case StartHelper => s.(helpers := s.helpers + {a.op})
    case Connect => s.(actors := Staged(s.actors, slot, a.stage.(connected := true)))
    case StartBrowser => s.(browsers := s.browsers + {a.op})
    case Cleanup(identified, verified, results) => CleanUp(s, slot, Facts(a.stage, identified, verified), results)
    case CloseOwn => s.(journal := Closed(s.journal, a.op, a.stage.revoked, a.stage.stopped))
    case Unregister => s.(actors := Staged(s.actors, slot, Unregistered), running := s.running - {a.op})
    case Release => s.(actors := Staged(s.actors, slot, Released), active := s.active - 1)
    case Send => s.(actors := s.actors - {slot}, finished := s.finished + [a.grantId])
  }

  function Step(s: State, e: Event): State
    requires Enabled(s, e)
  {
    match e
    case OfRecovery(r) => RecoveryStep(s, r)
    case OfDispatch(d) => DispatchStep(s, d)
    case OfActor(slot, a) => ActorStep(s, slot, a)
  }

  // ---- What holds whatever the operation ids ----------------------------------------------

  predicate IsRegistered(a: Actor) { a.stage.Live? || a.stage.Cleaned? }

  function Held(actors: map<nat, Actor>): set<nat> { set k | k in actors && !actors[k].stage.Released? }

  function RegisteredOps(actors: map<nat, Actor>): set<Op> {
    set k | k in actors && IsRegistered(actors[k]) :: actors[k].op
  }

  /** The operation in the dispatcher's hand, reserved or already registered. */
  predicate InHand(pc: Pc) { pc.Reserved? || pc.Registered? || pc.Counted? }

  function Starting(pc: Pc): set<Op> { if pc.Registered? || pc.Counted? then {pc.op} else {} }

  /** Everything running is registered or being started; the counter counts every
      actor that has not given its place back. */
  predicate Counters(s: State) {
    && s.running <= RegisteredOps(s.actors) + Starting(s.pc)
    && s.active == |Held(s.actors)| + (if s.pc.Counted? then 1 else 0) && s.active <= MAX_ACTORS
    && (s.pc.Admitting? || s.pc.Reserved? || s.pc.Registered? ==> s.active < MAX_ACTORS)
  }

  /** No actor holds a place. */
  predicate Quiet(running: set<Op>, actors: map<nat, Actor>) { running == {} && Held(actors) == {} }

  /** Nothing the dispatcher is about to recover is running, and a class-wide
      stop is ahead only while no actor holds a place. */
  predicate Selection(pc: Pc, running: set<Op>, actors: map<nat, Actor>, pending: set<Op>, terminated: set<Op>) {
    match pc
    case ModeChosen(full) => full ==> Quiet(running, actors)
    case Snapshotted(full, snapshot) => (full ==> Quiet(running, actors)) && running <= snapshot
    case Selected(full, records) => (full ==> Quiet(running, actors) && records <= pending) && records !! running
    case Recovering(rest) => rest !! running
    case Revoking(op, proved, rest) => rest !! running && op !in running && (proved ==> op in terminated)
    case Reconciling(op, proved, _, rest) => rest !! running && op !in running && (proved ==> op in terminated)
    case _ => true
  }

  /** Before the first recovery no actor exists. */
  predicate Gate(s: State) {
    && (!s.recovered ==> s.actors == map[] && s.running == {} && (s.pc.Idle? || s.pc.StartupStopped?))
    && (s.pc.StartupStopped? ==> !s.recovered && Alive(s) == {} && Pending(s.journal) <= s.stopped)
  }

  /** Unfinished records have different accounts and units, and all records
      different grants. */
  predicate Exclusive(journal: map<Op, Record>) {
    forall a, b | a in journal && b in journal && a != b ::
      && journal[a].grantId != journal[b].grantId
      && (journal[a].closure.Open? && journal[b].closure.Open? ==>
            journal[a].account != journal[b].account && journal[a].unit != journal[b].unit)
  }

  predicate Safe(s: State) {
    && Counters(s) && Gate(s) && Exclusive(s.journal) && s.terminated <= s.stopped
    && Selection(s.pc, s.running, s.actors, Pending(s.journal), s.terminated)
  }

  // ---- Actors ---------------------------------------------------------------------------

  lemma RegisteredIn(actors: map<nat, Actor>, k: nat)
    requires k in actors && IsRegistered(actors[k])
    ensures actors[k].op in RegisteredOps(actors)
  {
  }

  /** A registered actor goes on, or is unregistered. */
  lemma StageSet(actors: map<nat, Actor>, slot: nat, stage: Stage)
    requires slot in actors && IsRegistered(actors[slot]) && !stage.Released?
    ensures var x := Staged(actors, slot, stage);
            && Held(x) == Held(actors) && RegisteredOps(x) <= RegisteredOps(actors)
            && RegisteredOps(actors) - {actors[slot].op} <= RegisteredOps(x)
            && (!stage.Unregistered? ==> RegisteredOps(x) == RegisteredOps(actors))
  {
    var x := Staged(actors, slot, stage);
    forall op | op in RegisteredOps(actors) && (op != actors[slot].op || !stage.Unregistered?)
      ensures op in RegisteredOps(x)
    {
      var k :| k in actors && IsRegistered(actors[k]) && actors[k].op == op;
      RegisteredIn(x, k);
    }
    forall op | op in RegisteredOps(x) ensures op in RegisteredOps(actors) {
      var k :| k in x && IsRegistered(x[k]) && x[k].op == op;
      RegisteredIn(actors, k);
    }
  }

  lemma SlotReleased(actors: map<nat, Actor>, slot: nat)
    requires slot in actors && actors[slot].stage.Unregistered?
    ensures var x := Staged(actors, slot, Released);
            |Held(x)| == |Held(actors)| - 1 && Held(x) <= Held(actors) && RegisteredOps(x) == RegisteredOps(actors)
  {
    var x := Staged(actors, slot, Released);
    assert Held(x) == Held(actors) - {slot};
    forall op | op in RegisteredOps(actors) ensures op in RegisteredOps(x) {
      var k :| k in actors && IsRegistered(actors[k]) && actors[k].op == op;
      RegisteredIn(x, k);
    }
  }

  lemma SlotAdded(actors: map<nat, Actor>, slot: nat, a: Actor)
    requires slot !in actors && a.stage.Live?
    ensures |Held(actors[slot := a])| == |Held(actors)| + 1
    ensures RegisteredOps(actors[slot := a]) == RegisteredOps(actors) + {a.op}
  {
    var x := actors[slot := a];
    assert Held(x) == Held(actors) + {slot};
    forall op | op in RegisteredOps(actors) ensures op in RegisteredOps(x) {
      var k :| k in actors && IsRegistered(actors[k]) && actors[k].op == op;
      RegisteredIn(x, k);
    }
    RegisteredIn(x, slot);
  }

  lemma SlotSent(actors: map<nat, Actor>, slot: nat)
    requires slot in actors && actors[slot].stage.Released?
    ensures var x := actors - {slot};
            Held(x) == Held(actors) && RegisteredOps(x) == RegisteredOps(actors)
  {
    var x := actors - {slot};
    forall op | op in RegisteredOps(actors) ensures op in RegisteredOps(x) {
      var k :| k in actors && IsRegistered(actors[k]) && actors[k].op == op;
      RegisteredIn(x, k);
    }
  }

  lemma NoneHeld(actors: map<nat, Actor>)
    ensures Held(actors) == {} ==> RegisteredOps(actors) == {}
  {
    assert forall k | k in actors && IsRegistered(actors[k]) :: k in Held(actors);
  }

  // ---- Records ----------------------------------------------------------------------------------

  lemma ReserveExclusive(s: State, op: Op, r: Record)
    requires Exclusive(s.journal) && MayReserve(s, op, r)
    ensures Exclusive(s.journal[op := r])
  {
  }

  lemma ClosedExclusive(journal: map<Op, Record>, op: Op, revoked: bool, proved: bool)
    requires Exclusive(journal)
    ensures Exclusive(Closed(journal, op, revoked, proved))
  {
  }

  lemma TimedExclusive(journal: map<Op, Record>, ops: set<Op>)
    requires Exclusive(journal)
    ensures Exclusive(Timed(journal, ops))
  {
  }

  // ---- Every step is safe --------------------------------------------------------------------

  /** Recovery touches neither actors nor their registration. */
  lemma RecoveryFrame(s: State, e: RecoveryEvent)
    requires RecoveryEnabled(s, e)
    ensures var x := RecoveryStep(s, e);
            && x.running == s.running && x.active == s.active && x.actors == s.actors
            && !InHand(s.pc) && !InHand(x.pc) && !s.pc.Admitting? && !x.pc.Admitting?
            && (!e.Reconcile? && !e.Prune? && !e.ReleaseExpired? ==> x.journal == s.journal)
            && x.journal.Keys <= s.journal.Keys
  {
  }

  /** A zero counter means that no actor holds a place. */
  lemma QuietAtZero(s: State)
    requires Counters(s) && s.pc.Ready? && s.active == 0
    ensures Quiet(s.running, s.actors)
  {
    hide RegisteredOps;
    NoneHeld(s.actors);
  }

  lemma RecoveryGate(s: State, e: RecoveryEvent)
    requires Gate(s) && RecoveryEnabled(s, e)
    ensures Gate(RecoveryStep(s, e))
  {
  }

  lemma RecoverySelection(s: State, e: RecoveryEvent)
    requires Counters(s) && RecoveryEnabled(s, e)
    requires Selection(s.pc, s.running, s.actors, Pending(s.journal), s.terminated)
    ensures var x := RecoveryStep(s, e);
            Selection(x.pc, x.running, x.actors, Pending(x.journal), x.terminated)
  {
    hide RegisteredOps, Held, Counters, Closed, Timed;
    match e {
      case ChooseMode => if s.active == 0 { QuietAtZero(s); }
      case SnapshotPending => SnapshotSelects(s.running, s.pc.snapshot, Pending(s.journal));
      case Reconcile(_) => assert RecoveryStep(s, e).pc == Recovering(s.pc.rest);
      case Examine(op, _) => FewerRecords(s.pc.rest, op, s.running);
      case _ => hide Pending;
    }
  }

  lemma FewerRecords(rest: set<Op>, op: Op, running: set<Op>)
    requires rest !! running && op in rest
    ensures (rest - {op}) !! running && op !in running
  {
  }

  lemma SnapshotSelects(running: set<Op>, snapshot: set<Op>, pending: set<Op>)
    requires running <= snapshot
    ensures (pending - snapshot) !! running
  {
  }

  lemma RecoverySafe(s: State, e: RecoveryEvent)
    requires Safe(s) && RecoveryEnabled(s, e)
    ensures Safe(RecoveryStep(s, e))
  {
    hide RegisteredOps, Held;
    RecoveryFrame(s, e);
    RecoveryGate(s, e);
    RecoverySelection(s, e);
    match e {
      case Reconcile(timely) => ClosedExclusive(s.journal, s.pc.op, s.pc.revoked, s.pc.proved);
      case ReleaseExpired(ops) => TimedExclusive(s.journal, ops);
      case _ =>
    }
  }

  lemma LaunchCounts(s: State, slot: nat)
    requires Counters(s) && s.pc.Counted? && slot !in s.actors
    ensures Counters(DispatchStep(s, Launch(slot)))
  {
    hide RegisteredOps, Held;
    SlotAdded(s.actors, slot, Actor(s.pc.op, s.pc.grantId, FRESH));
    var x := DispatchStep(s, Launch(slot));
    assert x.running == s.running && x.active == s.active;
    assert Starting(x.pc) == {} && Starting(s.pc) == {s.pc.op};
  }

  lemma DispatchCounts(s: State, e: DispatchEvent)
    requires Counters(s) && DispatchEnabled(s, e)
    ensures Counters(DispatchStep(s, e))
  {
    hide RegisteredOps, Held;
    match e {
      case Launch(slot) => LaunchCounts(s, slot);
      case Register => assert DispatchStep(s, e).running == s.running + {s.pc.op};
      case _ => assert DispatchStep(s, e).actors == s.actors;
    }
  }

  lemma DispatchSafe(s: State, e: DispatchEvent)
    requires Safe(s) && DispatchEnabled(s, e)
    ensures Safe(DispatchStep(s, e))
  {
    hide RegisteredOps, Held;
    DispatchCounts(s, e);
    if e.Reserve? {
      ReserveExclusive(s, e.op, e.r);
    }
  }

  lemma ActorCounts(s: State, slot: nat, e: ActorEvent)
    requires Counters(s) && Enabled(s, OfActor(slot, e))
    ensures Counters(ActorStep(s, slot, e)) && Held(ActorStep(s, slot, e).actors) <= Held(s.actors)
  {
    hide RegisteredOps, Held, C.RunCleanup, C.Left;
    match e {
      case Release => SlotReleased(s.actors, slot);
      case Send => SlotSent(s.actors, slot);
      case CloseOwn =>
      case StartHelper =>
      case StartBrowser =>
      case _ => StageSet(s.actors, slot, ActorStep(s, slot, e).actors[slot].stage);
    }
  }

  /** An actor at work means that some place is held. */
  lemma ActorHeld(actors: map<nat, Actor>, slot: nat)
    requires slot in actors && !actors[slot].stage.Released?
    ensures slot in Held(actors)
  {
  }

  lemma ActorSafe(s: State, slot: nat, e: ActorEvent)
    requires Safe(s) && Enabled(s, OfActor(slot, e))
    ensures Safe(ActorStep(s, slot, e))
  {
    hide RegisteredOps, Held, C.RunCleanup, C.Left;
    ActorCounts(s, slot, e);
    if !e.Send? {
      ActorHeld(s.actors, slot);
    }
    if e.CloseOwn? {
      ClosedExclusive(s.journal, s.actors[slot].op, s.actors[slot].stage.revoked, s.actors[slot].stage.stopped);
    }
  }

  lemma StepSafe(s: State, e: Event)
    requires Safe(s) && Enabled(s, e)
    ensures Safe(Step(s, e))
  {
    match e {
      case OfRecovery(r) => RecoverySafe(s, r);
      case OfDispatch(d) => DispatchSafe(s, d);
      case OfActor(slot, a) => ActorSafe(s, slot, a);
    }
  }

  // ---- What needs operation ids not to come back -----------------------------------------------

  /** Registered actors work on different operations. */
  predicate OneActorEach(actors: map<nat, Actor>) {
    forall k, l | k in actors && l in actors && IsRegistered(actors[k]) && IsRegistered(actors[l])
                  && actors[k].op == actors[l].op :: k == l
  }

  /** The operation in hand is pending and new to everything else. */
  predicate HandOk(pc: Pc, journal: map<Op, Record>, registered: set<Op>, terminated: set<Op>, alive: set<Op>) {
    InHand(pc) ==>
      && pc.op in journal && journal[pc.op].closure.Open?
      && pc.op !in terminated && pc.op !in registered && pc.op !in alive
  }

  /** What is known to be stopped has no actor and no process. */
  predicate Termination(terminated: set<Op>, running: set<Op>, alive: set<Op>) {
    terminated !! running && terminated !! alive
  }

  /** A record closed by reconciliation has no process left and its account was
      revoked. */
  predicate ClosedOk(journal: map<Op, Record>, alive: set<Op>, revoked: set<Op>) {
    forall op | op in journal && journal[op].closure.Reconciled? :: op !in alive && op in revoked
  }

  /** What an actor claims to have stopped and revoked is. */
  predicate CleanedOk(actors: map<nat, Actor>, alive: set<Op>, revoked: set<Op>) {
    forall k | k in actors && actors[k].stage.Cleaned? ::
      && (actors[k].stage.stopped ==> actors[k].op !in alive)
      && (actors[k].stage.revoked ==> actors[k].op in revoked)
  }

  /** A live actor knows which processes it may have, and its record is not
      closed. */
  predicate LiveOk(actors: map<nat, Actor>, journal: map<Op, Record>, helpers: set<Op>, browsers: set<Op>) {
    forall k | k in actors && actors[k].stage.Live? ::
      && (actors[k].op in helpers ==> actors[k].stage.attempted)
      && (actors[k].op in browsers ==> actors[k].stage.connected)
      && (actors[k].op in journal ==> !journal[actors[k].op].closure.Reconciled?)
  }

  predicate Careful(s: State) {
    && RegisteredOps(s.actors) + Starting(s.pc) <= s.running && OneActorEach(s.actors)
    && HandOk(s.pc, s.journal, RegisteredOps(s.actors), s.terminated, Alive(s))
    && Termination(s.terminated, s.running, Alive(s))
    && ClosedOk(s.journal, Alive(s), s.revoked) && CleanedOk(s.actors, Alive(s), s.revoked)
    && LiveOk(s.actors, s.journal, s.helpers, s.browsers)
    && (s.pc.Reconciling? && s.pc.revoked ==> s.pc.op in s.revoked)
  }

  predicate Inv(s: State) { Safe(s) && Careful(s) }

  /** An operation id comes back while it is still taken as terminated, running
      or possibly alive; or, when the reservation is not even persisted, while
      an earlier actor of that id has revoked its account. */
  predicate Reuses(s: State, e: Event) {
    e.OfDispatch? && e.d.Reserve?
    && if e.d.persisted then e.d.op in s.terminated + s.running + Alive(s)
       else exists k :: k in s.actors && s.actors[k].op == e.d.op
                        && s.actors[k].stage.Cleaned? && s.actors[k].stage.revoked
  }

  // ---- Steps that keep it ------------------------------------------------------------------------

  lemma RecoveryCareful(s: State, e: RecoveryEvent)
    requires Inv(s) && RecoveryEnabled(s, e)
    ensures Careful(RecoveryStep(s, e))
  {
    hide RegisteredOps, Held, Exclusive;
    if e.Reconcile? {
      ReconcileCareful(s, e.timely);
    } else {
      RecoveryFrame(s, e);
    }
  }

  /** What recovery closes was proved terminated and its account revoked. */
  lemma ReconcileCareful(s: State, timely: bool)
    requires Inv(s) && s.pc.Reconciling?
    ensures Careful(RecoveryStep(s, Reconcile(timely)))
  {
    ReconcileSpares(s);
    ClosedCareful(s.journal, s.pc.op, s.pc.revoked, s.pc.proved, Alive(s), s.revoked);
    OnlyJournal(s, RecoveryStep(s, Reconcile(timely)));
  }

  /** The record being reconciled belongs to no live actor, and what was proved
      of it holds. */
  lemma ReconcileSpares(s: State)
    requires Inv(s) && s.pc.Reconciling?
    ensures s.pc.proved ==> s.pc.op !in Alive(s)
    ensures forall k | k in s.actors && s.actors[k].stage.Live? :: s.actors[k].op != s.pc.op
  {
    hide Held, Exclusive, Gate, Pending, ClosedOk, CleanedOk, LiveOk, OneActorEach;
    forall k | k in s.actors && s.actors[k].stage.Live? ensures s.actors[k].op != s.pc.op {
      RegisteredIn(s.actors, k);
    }
  }

  /** A step that changes at most one record, closing it, and the program
      counter. */
  lemma OnlyJournal(s: State, x: State)
    requires Careful(s) && s.pc.Reconciling? && x == s.(journal := x.journal, pc := Recovering(s.pc.rest))
    requires ClosedOk(x.journal, Alive(s), s.revoked)
    requires x.journal == s.journal
             || (s.pc.op in s.journal && x.journal == s.journal[s.pc.op := s.journal[s.pc.op].(closure := Reconciled)])
    requires forall k | k in s.actors && s.actors[k].stage.Live? :: s.actors[k].op != s.pc.op
    ensures Careful(x)
  {
    hide RegisteredOps, ClosedOk, CleanedOk, OneActorEach, Termination;
  }

  lemma ClosedCareful(
    journal: map<Op, Record>, op: Op, revoked: bool, proved: bool, alive: set<Op>, revokedOps: set<Op>)
    requires ClosedOk(journal, alive, revokedOps) && (proved ==> op !in alive) && (revoked ==> op in revokedOps)
    ensures ClosedOk(Closed(journal, op, revoked, proved), alive, revokedOps)
  {
  }

  lemma SlotDiffers(actors: map<nat, Actor>, slot: nat, a: Actor)
    requires OneActorEach(actors) && slot !in actors && a.op !in RegisteredOps(actors)
    ensures OneActorEach(actors[slot := a])
  {
    forall k | k in actors && IsRegistered(actors[k]) ensures actors[k].op != a.op {
      RegisteredIn(actors, k);
    }
  }

  lemma LaunchCareful(s: State, slot: nat)
    requires Inv(s) && s.pc.Counted? && slot !in s.actors
    ensures Careful(DispatchStep(s, Launch(slot)))
  {
    hide RegisteredOps, Held, Exclusive;
    SlotAdded(s.actors, slot, Actor(s.pc.op, s.pc.grantId, FRESH));
    SlotDiffers(s.actors, slot, Actor(s.pc.op, s.pc.grantId, FRESH));
  }

  /** Reserving keeps everything exactly when the id is not reused. */
  lemma ReserveExactly(s: State, e: DispatchEvent)
    requires Inv(s) && DispatchEnabled(s, e) && e.Reserve?
    ensures Careful(DispatchStep(s, e)) <==> !Reuses(s, OfDispatch(e))
  {
    hide Held, Exclusive;
    var x := DispatchStep(s, e);
    assert s.running == RegisteredOps(s.actors);
    forall k | k in s.actors && s.actors[k].stage.Cleaned? ensures s.actors[k].op in s.running {
      RegisteredIn(s.actors, k);
    }
    hide RegisteredOps;
    assert CleanedOk(x.actors, Alive(x), x.revoked)
      <==> forall k | k in s.actors && s.actors[k].stage.Cleaned? && s.actors[k].stage.revoked ::
             s.actors[k].op != e.op;
  }

  lemma DispatchExactly(s: State, e: DispatchEvent)
    requires Inv(s) && DispatchEnabled(s, e)
    ensures Careful(DispatchStep(s, e)) <==> !Reuses(s, OfDispatch(e))
  {
    hide RegisteredOps, Held, Exclusive;
    match e {
      case Reserve(_, _, _) => ReserveExactly(s, e);
      case Launch(slot) => LaunchCareful(s, slot);
      case Register => assert DispatchStep(s, e).running == s.running + {s.pc.op};
      case _ =>
    }
  }

  /** A stage change of one registered actor. */
  lemma StageCareful(actors: map<nat, Actor>, slot: nat, stage: Stage)
    requires OneActorEach(actors) && slot in actors && IsRegistered(actors[slot]) && !stage.Released?
    ensures OneActorEach(Staged(actors, slot, stage))
    ensures forall k | k in actors && k != slot && IsRegistered(actors[k]) :: actors[k].op != actors[slot].op
    ensures stage.Unregistered? ==>
              RegisteredOps(Staged(actors, slot, stage)) == RegisteredOps(actors) - {actors[slot].op}
  {
    StageSet(actors, slot, stage);
    var x := Staged(actors, slot, stage);
    if stage.Unregistered? {
      forall op | op in RegisteredOps(x) ensures op != actors[slot].op {
        var k :| k in x && IsRegistered(x[k]) && x[k].op == op;
      }
    }
  }

  /** The actor's cleanup: its facts cover its processes, so its claims hold. */
  lemma CleanupCareful(s: State, slot: nat, e: ActorEvent)
    requires Inv(s) && Enabled(s, OfActor(slot, e)) && e.Cleanup?
    ensures Careful(ActorStep(s, slot, e))
  {
    var a, x := s.actors[slot], ActorStep(s, slot, e);
    var f := Facts(a.stage, e.identified, e.verified);
    C.CleanupProvesStop(f, e.results, Own(s, a.op));
    StageSet(s.actors, slot, x.actors[slot].stage);
    StageCareful(s.actors, slot, x.actors[slot].stage);
    CleanupLeaves(s, slot, f, e.results);
    hide RegisteredOps, Held, Exclusive, C.RunCleanup, C.Left, CleanUp;
  }

  /** What a cleanup changes, apart from how its claims are made. */
  lemma CleanupLeaves(s: State, slot: nat, f: C.Facts, r: C.Results)
    requires slot in s.actors && s.actors[slot].stage.Live? && C.Consistent(f, Own(s, s.actors[slot].op))
    ensures var op, x, stage := s.actors[slot].op, CleanUp(s, slot, f, r), CleanUp(s, slot, f, r).actors[slot].stage;
            && x == s.(actors := Staged(s.actors, slot, stage), helpers := x.helpers, browsers := x.browsers,
                       revoked := x.revoked)
            && stage.Cleaned? && (stage.stopped ==> op !in Alive(x)) && (stage.revoked ==> op in x.revoked)
            && s.revoked <= x.revoked && x.helpers <= s.helpers && x.browsers <= s.browsers
  {
    C.CleanupProvesStop(f, r, Own(s, s.actors[slot].op));
  }

  lemma ActorCareful(s: State, slot: nat, e: ActorEvent)
    requires Inv(s) && Enabled(s, OfActor(slot, e))
    ensures Careful(ActorStep(s, slot, e))
  {
    hide Held, Exclusive;
    var a := s.actors[slot];
    if IsRegistered(a) {
      RegisteredIn(s.actors, slot);
    }
    match e {
      case Cleanup(_, _, _) => CleanupCareful(s, slot, e);
      case Release => SlotReleased(s.actors, slot);
      case Send => SlotSent(s.actors, slot);
      case CloseOwn => OthersDiffer(s.actors, slot);
      case StartHelper => OthersDiffer(s.actors, slot);
      case StartBrowser => OthersDiffer(s.actors, slot);
      case _ => GoOnCareful(s, slot, e);
    }
  }

  lemma OthersDiffer(actors: map<nat, Actor>, slot: nat)
    requires OneActorEach(actors) && slot in actors && IsRegistered(actors[slot])
    ensures forall k | k in actors && k != slot && IsRegistered(actors[k]) :: actors[k].op != actors[slot].op
  {
  }

  lemma GoOnCareful(s: State, slot: nat, e: ActorEvent)
    requires Inv(s) && Enabled(s, OfActor(slot, e)) && (e.Attempt? || e.Connect? || e.Unregister?)
    ensures Careful(ActorStep(s, slot, e))
  {
    var x := ActorStep(s, slot, e);
    StageSet(s.actors, slot, x.actors[slot].stage);
    StageCareful(s.actors, slot, x.actors[slot].stage);
    hide RegisteredOps, Held, Exclusive;
  }

  /** Every atomic step of dispatcher and actors keeps the invariant if and only
      if it does not reuse an operation id. */
  lemma StepKeepsInvExactly(s: State, e: Event)
    requires Inv(s) && Enabled(s, e)
    ensures Inv(Step(s, e)) <==> !Reuses(s, e)
  {
    hide Careful, Safe, Reuses;
    SafeOf(s);
    StepSafe(s, e);
    NotReserve(s, e);
    match e {
      case OfRecovery(r) => RecoveryCareful(s, r);
      case OfDispatch(d) => DispatchExactly(s, d);
      case OfActor(slot, a) => ActorCareful(s, slot, a);
    }
  }

  lemma SafeOf(s: State)
    requires Inv(s)
    ensures Safe(s)
  {
  }

  lemma NotReserve(s: State, e: Event)
    ensures !e.OfDispatch? ==> !Reuses(s, e)
  {
  }

  // ---- Safety over all interleavings --------------------------------------------------------------

  /** A broker start: no actor yet, any journal and any processes left over. */
  predicate Initial(s: State) {
    && s.running == {} && s.active == 0 && s.actors == map[] && s.terminated == {} && !s.recovered && s.pc.Idle?
    && Exclusive(s.journal) && ClosedOk(s.journal, Alive(s), s.revoked)
  }

  predicate IsRun(ss: seq<State>, es: seq<Event>) {
    && |ss| == |es| + 1 && Initial(ss[0])
    && forall i | 0 <= i < |es| :: Enabled(ss[i], es[i]) && ss[i + 1] == Step(ss[i], es[i])
  }

  lemma {:induction false} RunSafe(ss: seq<State>, es: seq<Event>, i: nat)
    requires IsRun(ss, es) && i < |ss|
    ensures Safe(ss[i])
  {
    if i > 0 {
      hide Step, Enabled, Safe;
      RunSafe(ss, es, i - 1);
      StepSafe(ss[i - 1], es[i - 1]);
    }
  }

  predicate IsClassStop(e: Event) { e.OfRecovery? && (e.r.StartupStop? || e.r.ClassStop?) }

  /** Over every interleaving a class-wide stop is issued only while no
      operation is registered as running and no actor may own a process. */
  lemma NoStopUnderActors(ss: seq<State>, es: seq<Event>, i: nat, k: nat)
    requires IsRun(ss, es) && i < |es| && IsClassStop(es[i])
    ensures ss[i].running == {} && (k in ss[i].actors ==> ss[i].actors[k].stage.Released?)
  {
    RunSafe(ss, es, i);
    assert k !in Held(ss[i].actors);
  }

  predicate Recovers(e: Event) { IsClassStop(e) && e.r.ok }

  /** Only a successful class-wide stop opens the gate. */
  lemma GateOpens(s: State, e: Event)
    requires Enabled(s, e) && (Step(s, e).recovered || Step(s, e).pc.StartupStopped?)
    ensures Recovers(e) || s.recovered || s.pc.StartupStopped?
  {
  }

  lemma {:induction false} RecoveredMeansStopped(ss: seq<State>, es: seq<Event>, i: nat)
    requires IsRun(ss, es) && i < |ss| && (ss[i].recovered || ss[i].pc.StartupStopped?)
    ensures exists j :: 0 <= j < i && Recovers(es[j])
  {
    hide Step, Enabled;
    GateOpens(ss[i - 1], es[i - 1]);
    if !Recovers(es[i - 1]) {
      RecoveredMeansStopped(ss, es, i - 1);
    }
  }

  /** No actor is launched before a class-wide recovery succeeded, and never
      more than sixteen hold a place. */
  lemma LaunchAfterRecovery(ss: seq<State>, es: seq<Event>, i: nat)
    requires IsRun(ss, es) && i < |es|
    ensures |Held(ss[i].actors)| <= MAX_ACTORS
    ensures es[i].OfDispatch? && es[i].d.Launch? ==>
              (exists j :: 0 <= j < i && Recovers(es[j])) && |Held(ss[i].actors)| < MAX_ACTORS
  {
    RunSafe(ss, es, i);
    if es[i].OfDispatch? && es[i].d.Launch? {
      RecoveredMeansStopped(ss, es, i);
    }
  }

  /** Two unfinished operations never share an account or a unit. */
  lemma OneOperationPerAccount(ss: seq<State>, es: seq<Event>, i: nat, a: Op, b: Op)
    requires IsRun(ss, es) && i < |ss| && a != b
    requires a in Pending(ss[i].journal) && b in Pending(ss[i].journal)
    ensures ss[i].journal[a].account != ss[i].journal[b].account && ss[i].journal[a].unit != ss[i].journal[b].unit
  {
    RunSafe(ss, es, i);
  }

  // ---- Runs that reuse no operation id ---------------------------------------------------------------

  predicate NoReuse(ss: seq<State>, es: seq<Event>)
    requires IsRun(ss, es)
  {
    forall i | 0 <= i < |es| :: !Reuses(ss[i], es[i])
  }

  lemma InitialInv(s: State)
    requires Initial(s)
    ensures Inv(s)
  {
  }

  lemma {:induction false} RunInv(ss: seq<State>, es: seq<Event>, i: nat)
    requires IsRun(ss, es) && NoReuse(ss, es) && i < |ss|
    ensures Inv(ss[i])
  {
    hide Step, Enabled, Inv, Reuses, Initial;
    if i == 0 {
      InitialInv(ss[0]);
    } else {
      RunInv(ss, es, i - 1);
      StepKeepsInvExactly(ss[i - 1], es[i - 1]);
    }
  }

  /** Recovery never begins a revoke on, or reconciles, the record of an actor
      that is still registered; and what it takes as terminated was pending at
      a class-wide stop and has no process. */
  lemma RecoveryLeavesActorsAlone(ss: seq<State>, es: seq<Event>, i: nat, k: nat)
    requires IsRun(ss, es) && NoReuse(ss, es) && i < |es| && es[i].OfRecovery?
    ensures ss[i].terminated !! ss[i].running
    ensures k in ss[i].actors && IsRegistered(ss[i].actors[k]) ==>
              && (es[i].r.Examine? ==> es[i].r.op != ss[i].actors[k].op)
              && (ss[i].pc.Revoking? || ss[i].pc.Reconciling? ==> ss[i].pc.op != ss[i].actors[k].op)
    ensures (ss[i].pc.Revoking? || ss[i].pc.Reconciling?) && ss[i].pc.proved ==>
              ss[i].pc.op in ss[i].stopped && ss[i].pc.op !in Alive(ss[i])
  {
    RunInv(ss, es, i);
    if k in ss[i].actors && IsRegistered(ss[i].actors[k]) {
      RegisteredIn(ss[i].actors, k);
    }
  }

  /** A record is closed, other than by its independent maximum, only when its
      account was revoked and no helper or browser of it is left. */
  lemma ClosedOnlyWhenStopped(ss: seq<State>, es: seq<Event>, i: nat, op: Op)
    requires IsRun(ss, es) && NoReuse(ss, es) && i < |ss|
    requires op in ss[i].journal && ss[i].journal[op].closure.Reconciled?
    ensures op !in Alive(ss[i]) && op in ss[i].revoked
  {
    RunInv(ss, es, i);
  }
}
