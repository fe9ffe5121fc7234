/** Operation ids that come back: ids that never repeat are enough for every
    result of `Dispatcher`, and one that is used again after its record was
    pruned can have its record closed while its helper runs. */
module OperationIds {
  import opened Text
  import opened Dispatcher

  // ---- Ids that never repeat ------------------------------------------------------------

  function PcOps(pc: Pc): set<Op> {
    match pc
    case Selected(_, records) => records
    case Recovering(rest) => rest
    case Revoking(op, _, rest) => {op} + rest
    case Reconciling(op, _, _, rest) => {op} + rest
    case Reserved(op, _) => {op}
    case Registered(op, _) => {op}
    case Counted(op, _) => {op}
    case _ => {}
  }

  function ActorOps(actors: map<nat, Actor>): set<Op> { set k | k in actors :: actors[k].op }

  /** Every id that occurs anywhere. */
  function Occurring(s: State): set<Op> {
    s.journal.Keys + s.running + s.terminated + Alive(s) + ActorOps(s.actors) + PcOps(s.pc)
  }

  function NewOp(e: Event): set<Op> { if e.OfDispatch? && e.d.Reserve? then {e.d.op} else {} }

  lemma StagedOps(actors: map<nat, Actor>, slot: nat, stage: Stage)
    requires slot in actors
    ensures ActorOps(Staged(actors, slot, stage)) <= ActorOps(actors)
  {
    var x := Staged(actors, slot, stage);
    forall k | k in x ensures x[k].op in ActorOps(actors) {
      assert x[k].op == actors[k].op;
    }
  }

  lemma LaunchedOps(actors: map<nat, Actor>, slot: nat, a: Actor)
    ensures ActorOps(actors[slot := a]) <= ActorOps(actors) + {a.op}
  {
  }

  lemma SentOps(actors: map<nat, Actor>, slot: nat)
    ensures ActorOps(actors - {slot}) <= ActorOps(actors)
  {
  }

  lemma RecoveryOps(s: State, e: RecoveryEvent)
    requires RecoveryEnabled(s, e)
    ensures Occurring(RecoveryStep(s, e)) <= Occurring(s)
  {
    hide ActorOps;
    RecoveryFrame(s, e);
  }

  lemma DispatchOps(s: State, e: DispatchEvent)
    requires DispatchEnabled(s, e)
    ensures Occurring(DispatchStep(s, e)) <= Occurring(s) + NewOp(OfDispatch(e))
  {
    hide ActorOps;
    if e.Launch? {
      LaunchedOps(s.actors, e.slot, Actor(s.pc.op, s.pc.grantId, FRESH));
    }
  }

  lemma ActorStepOps(s: State, slot: nat, e: ActorEvent)
    requires Enabled(s, OfActor(slot, e))
    ensures Occurring(ActorStep(s, slot, e)) <= Occurring(s)
  {
    var x := ActorStep(s, slot, e);
    assert s.actors[slot].op in ActorOps(s.actors);
    hide ActorOps, C.RunCleanup, C.Left;
    if e.Send? {
      SentOps(s.actors, slot);
    } else {
      StagedOps(s.actors, slot, x.actors[slot].stage);
      assert x.actors == Staged(s.actors, slot, x.actors[slot].stage);
    }
  }

  lemma StepOps(s: State, e: Event)
    requires Enabled(s, e)
    ensures Occurring(Step(s, e)) <= Occurring(s) + NewOp(e)
  {
    hide Occurring;
    match e {
      case OfRecovery(r) => RecoveryOps(s, r);
      case OfDispatch(d) => DispatchOps(s, d);
      case OfActor(slot, a) => ActorStepOps(s, slot, a);
    }
  }

  /** The ids present at the start and those reserved since. */
  function Known(s: State, es: seq<Event>): set<Op> {
    if es == [] then Occurring(s) else Known(s, es[..|es| - 1]) + NewOp(es[|es| - 1])
  }

  /** The controller never names two operations alike. */
  predicate FreshIds(ss: seq<State>, es: seq<Event>)
    requires IsRun(ss, es)
  {
    forall i | 0 <= i < |es| :: NewOp(es[i]) !! Known(ss[0], es[..i])
  }

  lemma {:induction false} KnownCovers(ss: seq<State>, es: seq<Event>, i: nat)
    requires IsRun(ss, es) && i < |ss|
    ensures Occurring(ss[i]) <= Known(ss[0], es[..i])
  {
    hide Occurring, Step, Enabled, NewOp, Initial;
    if i > 0 {
      KnownCovers(ss, es, i - 1);
      StepOps(ss[i - 1], es[i - 1]);
      assert es[..i][..i - 1] == es[..i - 1] && es[..i][i - 1] == es[i - 1];
    }
  }

  lemma ReusesKnown(s: State, e: Event)
    requires Reuses(s, e)
    ensures NewOp(e) <= Occurring(s)
  {
    if !e.d.persisted {
      var k :| k in s.actors && s.actors[k].op == e.d.op && s.actors[k].stage.Cleaned? && s.actors[k].stage.revoked;
      assert e.d.op in ActorOps(s.actors);
    }
  }

  /** Ids that never repeat are never reused, so every result above applies. */
  lemma FreshIdsSuffice(ss: seq<State>, es: seq<Event>)
    requires IsRun(ss, es) && FreshIds(ss, es)
    ensures NoReuse(ss, es)
  {
    hide Occurring, Step, Enabled, Reuses, Known;
    forall i | 0 <= i < |es| ensures !Reuses(ss[i], es[i]) {
      KnownCovers(ss, es, i);
      if Reuses(ss[i], es[i]) {
        ReusesKnown(ss[i], es[i]);
        ReserveNews(ss[i], es[i]);
        assert false;
      }
    }
  }

  lemma ReserveNews(s: State, e: Event)
    requires Reuses(s, e)
    ensures NewOp(e) != {}
  {
  }

  // ---- A run that reuses one --------------------------------------------------------------

  /** Steps taken one after another, as long as each is enabled. */
  function After(s: State, es: seq<Event>): Option<State>
    decreases |es|
  {
    if es == [] then Some(s)
    else if Enabled(s, es[0]) then After(Step(s, es[0]), es[1..])
    else None
  }

  /** A broker with one record, recovered once. */
  function OneRecord(op: Op, r: Record, pc: Pc): State {
    State(map[op := r], false, {}, 0, map[], {}, [], {op}, true, pc, {}, {}, {op}, {op})
  }

  /** An earlier broker left one unfinished record. */
  function LeftOver(op: Op, r: Record): State {
    State(map[op := r], false, {}, 0, map[], {}, [], {}, false, Idle, {}, {}, {}, {})
  }

  lemma TakeStep(s: State, es: seq<Event>, x: State)
    requires es != [] && Enabled(s, es[0]) && Step(s, es[0]) == x
    ensures After(s, es) == After(x, es[1..])
  {
  }

  lemma AfterNone(s: State)
    ensures After(s, []) == Some(s)
  {
  }

  lemma {:induction false} AfterAppend(s: State, a: seq<Event>, b: seq<Event>, x: State)
    requires After(s, a) == Some(x)
    ensures After(s, a + b) == After(x, b)
    decreases |a|
  {
    if a == [] {
      assert a + b == b;
    } else {
      assert (a + b)[1..] == a[1..] + b;
      AfterAppend(Step(s, a[0]), a[1..], b, x);
    }
  }

  lemma PendingOne(op: Op, r: Record)
    ensures Pending(map[op := r]) == if r.closure.Open? then {op} else {}
  {
  }

  const RECOVER := [OfRecovery(StartupStop(true)), OfRecovery(Remember), OfRecovery(ChooseMode),
                    OfRecovery(SnapshotRunning), OfRecovery(SnapshotPending), OfRecovery(ClassStop(true))]

  lemma Recovered(op: Op, r: Record)
    requires r.closure.Open?
    ensures After(LeftOver(op, r), RECOVER) == Some(OneRecord(op, r, Recovering({op})).(revoked := {}))
  {
    hide After;
    PendingOne(op, r);
    var s0, es := LeftOver(op, r), RECOVER;
    var s1 := s0.(pc := StartupStopped, stopped := {op});
    TakeStep(s0, es, s1);
    var s2 := OneRecord(op, r, Ready).(revoked := {});
    TakeStep(s1, es[1..], s2);
    TakeStep(s2, es[2..], s2.(pc := ModeChosen(true)));
    TakeStep(s2.(pc := ModeChosen(true)), es[3..], s2.(pc := Snapshotted(true, {})));
    assert Pending(s2.journal) - {} == {op};
    TakeStep(s2.(pc := Snapshotted(true, {})), es[4..], s2.(pc := Selected(true, {op})));
    TakeStep(s2.(pc := Selected(true, {op})), es[5..], s2.(pc := Recovering({op})));
    assert es[6..] == [];
    AfterNone(s2.(pc := Recovering({op})));
  }

  function Close(op: Op): seq<Event> {
    [OfRecovery(Examine(op, true)), OfRecovery(RevokeAccount(true)), OfRecovery(Reconcile(true))]
  }

  /** A record that counts as terminated is closed once its account is revoked. */
  lemma ClosedByRecovery(op: Op, s: State)
    requires s.pc == Recovering({op}) && op in s.terminated && op in s.journal && s.journal[op].closure.Open?
    ensures After(s, Close(op))
         == Some(s.(pc := Recovering({}), revoked := s.revoked + {op},
                    journal := s.journal[op := s.journal[op].(closure := Reconciled)]))
  {
    hide After;
    var es := Close(op);
    assert {op} - {op} == {};
    TakeStep(s, es, s.(pc := Revoking(op, true, {})));
    var s2 := s.(pc := Reconciling(op, true, true, {}), revoked := s.revoked + {op});
    TakeStep(s.(pc := Revoking(op, true, {})), es[1..], s2);
    var s3 := s2.(pc := Recovering({}), journal := s.journal[op := s.journal[op].(closure := Reconciled)]);
    TakeStep(s2, es[2..], s3);
    assert es[3..] == [];
    AfterNone(s3);
  }

  function Forget(op: Op): seq<Event> {
    [OfRecovery(EndRecovery), OfDispatch(EndDispatch), OfRecovery(Prune({op})), OfRecovery(Begin),
     OfRecovery(EndRecovery)]
  }

  lemma Forgotten(op: Op, r: Record)
    requires r.closure.Reconciled?
    ensures After(OneRecord(op, r, Recovering({})), Forget(op))
         == Some(OneRecord(op, r, Dispatching).(journal := map[]))
  {
    hide After;
    var es, s := Forget(op), OneRecord(op, r, Recovering({}));
    TakeStep(s, es, s.(pc := Dispatching));
    TakeStep(s.(pc := Dispatching), es[1..], s.(pc := Idle));
    assert s.journal - {op} == map[];
    var x := s.(journal := map[]);
    TakeStep(s.(pc := Idle), es[2..], x.(pc := Idle));
    TakeStep(x.(pc := Idle), es[3..], x.(pc := Ready));
    TakeStep(x.(pc := Ready), es[4..], x.(pc := Dispatching));
    assert es[5..] == [];
    AfterNone(x.(pc := Dispatching));
  }

  function Again(op: Op, r: Record): seq<Event> {
    [OfDispatch(Admit), OfDispatch(Reserve(op, r, true)), OfDispatch(Register), OfDispatch(Count),
     OfDispatch(Launch(0))]
  }

  /** The id is used again and its actor started. */
  function Relaunched(op: Op, r: Record, stage: Stage): State {
    OneRecord(op, r, Dispatching).(
      running := {op}, active := 1, actors := map[0 := Actor(op, r.grantId, stage)],
      runningGrants := {r.grantId}, revoked := {})
  }

  lemma LaunchedAgain(op: Op, r: Record, s: State)
    requires r.closure.Open? && s == OneRecord(op, r.(closure := Reconciled), Dispatching).(journal := map[])
    ensures After(s, Again(op, r)) == Some(Relaunched(op, r, FRESH))
  {
    hide After;
    var es := Again(op, r);
    TakeStep(s, es, s.(pc := Admitting));
    var s2 := OneRecord(op, r, Reserved(op, r.grantId)).(revoked := {});
    assert s.revoked - {op} == {};
    assert Step(s.(pc := Admitting), es[1]).journal == map[op := r];
    TakeStep(s.(pc := Admitting), es[1..], s2);
    var s3 := s2.(running := {op}, runningGrants := {r.grantId}, pc := Registered(op, r.grantId));
    TakeStep(s2, es[2..], s3);
    var s4 := s3.(active := 1, pc := Counted(op, r.grantId));
    TakeStep(s3, es[3..], s4);
    TakeStep(s4, es[4..], Relaunched(op, r, FRESH));
    assert es[5..] == [];
    AfterNone(Relaunched(op, r, FRESH));
  }

  const LOSE := [OfActor(0, Attempt), OfActor(0, StartHelper), OfActor(0, Unregister), OfDispatch(EndDispatch),
                 OfRecovery(Begin), OfRecovery(ChooseMode), OfRecovery(SnapshotRunning), OfRecovery(SnapshotPending)]

  /** The new actor is gone but still holds its place, and its helper runs. */
  function Lost(op: Op, r: Record, pc: Pc): State {
    Relaunched(op, r, Unregistered).(running := {}, helpers := {op}, pc := pc)
  }

  /** The actor starts its helper and ends without cleaning up. */
  lemma ActorLost(op: Op, r: Record)
    ensures After(Relaunched(op, r, FRESH), LOSE) == After(Lost(op, r, Dispatching), LOSE[3..])
  {
    hide After;
    var es, s := LOSE, Relaunched(op, r, FRESH);
    var s1 := Relaunched(op, r, Live(true, false));
    TakeStep(s, es, s1);
    TakeStep(s1, es[1..], s1.(helpers := {op}));
    assert {op} - {op} == {};
    assert es[1..][1..] == es[2..] && es[2..][1..] == es[3..];
    TakeStep(s1.(helpers := {op}), es[2..], Lost(op, r, Dispatching));
  }

  /** Its record is then the recovery's to examine, which is light as the place
      is still held. */
  lemma LostAgain(op: Op, r: Record)
    requires r.closure.Open?
    ensures After(Relaunched(op, r, FRESH), LOSE) == Some(Lost(op, r, Recovering({op})))
  {
    hide After;
    ActorLost(op, r);
    PendingOne(op, r);
    var es := LOSE[3..];
    assert es == [OfDispatch(EndDispatch), OfRecovery(Begin), OfRecovery(ChooseMode), OfRecovery(SnapshotRunning),
                  OfRecovery(SnapshotPending)];
    TakeStep(Lost(op, r, Dispatching), es, Lost(op, r, Idle));
    TakeStep(Lost(op, r, Idle), es[1..], Lost(op, r, Ready));
    TakeStep(Lost(op, r, Ready), es[2..], Lost(op, r, ModeChosen(false)));
    TakeStep(Lost(op, r, ModeChosen(false)), es[3..], Lost(op, r, Snapshotted(false, {})));
    assert Pending(Lost(op, r, Idle).journal) - {} == {op};
    TakeStep(Lost(op, r, Snapshotted(false, {})), es[4..], Lost(op, r, Recovering({op})));
    assert es[5..] == [];
    AfterNone(Lost(op, r, Recovering({op})));
  }

  /** A record left over from an earlier broker is recovered, closed and pruned,
      and its operation id is used again. The new actor loses its helper, and
      recovery, which still takes the id as terminated, closes the record while
      the helper runs. */
  lemma ReuseClosesRunning(op: Op, r: Record)
    requires r.closure.Open?
    ensures exists s: State, es: seq<Event> ::
              && Initial(s) && After(s, es).Some?
              && var x := After(s, es).value;
                 op in x.journal && x.journal[op].closure.Reconciled? && op in Alive(x)
  {
    hide After, Step, Enabled;
    var s := LeftOver(op, r);
    var closed := r.(closure := Reconciled);
    Recovered(op, r);
    ClosedByRecovery(op, OneRecord(op, r, Recovering({op})).(revoked := {}));
    assert OneRecord(op, r, Recovering({op})).journal[op := closed] == map[op := closed];
    assert {} + {op} == {op};
    Forgotten(op, closed);
    LaunchedAgain(op, r, OneRecord(op, closed, Dispatching).(journal := map[]));
    LostAgain(op, r);
    var lost := Lost(op, r, Recovering({op}));
    ClosedByRecovery(op, lost);
    Chain(s, op, r, closed, lost);
  }

  lemma Chain(s: State, op: Op, r: Record, closed: Record, lost: State)
    requires s == LeftOver(op, r) && r.closure.Open? && op in lost.helpers && op in lost.journal
    requires After(s, RECOVER) == Some(OneRecord(op, r, Recovering({op})).(revoked := {}))
    requires After(OneRecord(op, r, Recovering({op})).(revoked := {}), Close(op))
          == Some(OneRecord(op, closed, Recovering({})))
    requires After(OneRecord(op, closed, Recovering({})), Forget(op))
          == Some(OneRecord(op, closed, Dispatching).(journal := map[]))
    requires After(OneRecord(op, closed, Dispatching).(journal := map[]), Again(op, r))
          == Some(Relaunched(op, r, FRESH))
    requires After(Relaunched(op, r, FRESH), LOSE) == Some(lost)
    requires After(lost, Close(op))
          == Some(lost.(pc := Recovering({}), revoked := lost.revoked + {op},
                        journal := lost.journal[op := lost.journal[op].(closure := Reconciled)]))
    ensures exists s: State, es: seq<Event> ::
              && Initial(s) && After(s, es).Some?
              && var x := After(s, es).value;
                 op in x.journal && x.journal[op].closure.Reconciled? && op in Alive(x)
  {
    hide After, Step, Enabled, OneRecord, Relaunched;
    var e5 := LOSE + Close(op);
    var e4 := Again(op, r) + e5;
    var e3 := Forget(op) + e4;
    var e2 := Close(op) + e3;
    AfterAppend(Relaunched(op, r, FRESH), LOSE, Close(op), lost);
    AfterAppend(OneRecord(op, closed, Dispatching).(journal := map[]), Again(op, r), e5, Relaunched(op, r, FRESH));
    AfterAppend(OneRecord(op, closed, Recovering({})), Forget(op), e4,
                OneRecord(op, closed, Dispatching).(journal := map[]));
    AfterAppend(OneRecord(op, r, Recovering({op})).(revoked := {}), Close(op), e3,
                OneRecord(op, closed, Recovering({})));
    AfterAppend(s, RECOVER, e2, OneRecord(op, r, Recovering({op})).(revoked := {}));
    assert Initial(s);
    assert After(s, RECOVER + e2) == After(lost, Close(op));
  }
}
