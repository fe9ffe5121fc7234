/** How far signed controller time can move back: the persisted mark, the
    signed times accepted against it, and trusted time at a fixed boottime. */
module SignedTime {
  import opened Text
  import opened JournalLine
  import opened JournalFile
  import G = GrantJournal
  import J = JournalRuns
  import R = RevocationJournal
  import opened GrantVerifier
  import opened VerifierRuns

  // ---- The persisted mark ---------------------------------------------------------

  predicate Falls(before: Option<nat>, after: Option<nat>) {
    before.Some? && (after.None? || after.value < before.value)
  }

  ghost predicate AcceptsReply(w: World, e: Event)
    requires Enabled(w, e)
  {
    e.Replies? && AcceptReply(w.d, w.process.value, e.r, e.nodeId, e.epoch, e.boot, e.io).2
  }

  /** The reply passes every check and its mark reaches the disk. */
  ghost predicate WritesMark(w: World, e: Event)
    requires Enabled(w, e)
  {
    e.Replies? && CheckReply(w.process.value, e.r, e.nodeId, e.epoch, e.boot).Some? && !e.io.mark.MarkLost?
  }

  lemma MarkStep(w: World, e: Event)
    requires Enabled(w, e)
    ensures Step(w, e).d.mark
      == if WritesMark(w, e) then Some(Raised(w.process.value.highest, e.r.controllerTime)) else w.d.mark
  {
    if !e.Replies? && w.process.Some? && !e.Starts? && !e.Crashes? {
      OtherMemory(w, e);
    }
  }

  /** The mark falls exactly when a reply is written against a memory that lags
      behind the mark, at a signed time below it. */
  lemma MarkFallsExactly(w: World, e: Event)
    requires Enabled(w, e)
    ensures Falls(w.d.mark, Step(w, e).d.mark)
      <==> WritesMark(w, e) && w.d.mark.Some? && Raised(w.process.value.highest, e.r.controllerTime) < w.d.mark.value
  {
    MarkStep(w, e);
  }

  /** Memory holds the persisted mark. */
  predicate MarkInStep(w: World) { w.process.Some? ==> w.process.value.highest == w.d.mark }

  /** The mark reaches the disk and raises the old one, but then the mark is not
      flushed, the journal is due and not replaced, or a tombstone is due and
      the revocation file is not replaced. */
  ghost predicate LeavesMarkBehind(w: World, e: Event)
    requires Enabled(w, e)
  {
    && WritesMark(w, e) && !Completes(w, e)
    && w.process.value.highest != Some(Raised(w.process.value.highest, e.r.controllerTime))
  }

  /** Memory and mark stay equal if and only if no reply leaves its mark behind. */
  lemma MarkInStepExactly(w: World, e: Event)
    requires JournalOk(w) && Enabled(w, e) && MarkInStep(w)
    ensures MarkInStep(Step(w, e)) <==> !LeavesMarkBehind(w, e)
  {
    hide JournalOk, Completes;
    MarkStep(w, e);
    if e.Replies? {
      ReplyMemory(w, e);
      ReplyCompletesExactly(w, e);
    } else if w.process.Some? && !e.Starts? && !e.Crashes? {
      OtherMemory(w, e);
    }
  }

  /** A reply that leaves its mark behind is the end of its process. */
  ghost predicate EndsBehind(ws: seq<World>, es: seq<Event>, expiry: Id -> nat)
    requires IsRun(ws, es, expiry)
  {
    forall i | 0 <= i && i + 1 < |es| && LeavesMarkBehind(ws[i], es[i]) :: es[i + 1].Crashes?
  }

  /** Memory holds the mark in every state but one in which the process is about
      to crash. */
  lemma {:induction false} RunMarkInStep(ws: seq<World>, es: seq<Event>, expiry: Id -> nat, i: nat)
    requires IsRun(ws, es, expiry) && EndsBehind(ws, es, expiry) && i < |ws|
    requires i > 0 ==> !LeavesMarkBehind(ws[i - 1], es[i - 1])
    ensures MarkInStep(ws[i])
  {
    if i > 0 {
      if es[i - 1].Crashes? {
        assert ws[i].process.None?;
      } else {
        hide Enabled, Step, LeavesMarkBehind, MarkInStep;
        RunMarkInStep(ws, es, expiry, i - 1);
        RunJournal(ws, es, expiry, i - 1);
        MarkInStepExactly(ws[i - 1], es[i - 1]);
      }
    }
  }

  lemma AcceptedNearMark(w: World, e: Event)
    requires Enabled(w, e) && MarkInStep(w)
    ensures !Falls(w.d.mark, Step(w, e).d.mark)
    ensures AcceptsReply(w, e) && w.d.mark.Some? ==>
              e.r.controllerTime + ROLLBACK_TOLERANCE_MS >= w.d.mark.value
  {
    MarkFallsExactly(w, e);
    if AcceptsReply(w, e) {
      ReplyMemory(w, e);
      CheckReplyFacts(w.process.value, e.r, e.nodeId, e.epoch, e.boot);
    }
  }

  lemma {:induction false} NeverFalls(marks: seq<Option<nat>>, i: nat, j: nat)
    requires i <= j < |marks| && forall k: nat | k + 1 < |marks| :: !Falls(marks[k], marks[k + 1])
    ensures !Falls(marks[i], marks[j])
  {
    if i < j {
      NeverFalls(marks, i, j - 1);
    }
  }

  lemma MarkRises(ws: seq<World>, es: seq<Event>, expiry: Id -> nat, i: nat, j: nat)
    requires IsRun(ws, es, expiry) && EndsBehind(ws, es, expiry) && i <= j < |ws|
    ensures !Falls(ws[i].d.mark, ws[j].d.mark)
  {
    var marks := seq(|ws|, k requires 0 <= k < |ws| => ws[k].d.mark);
    forall k: nat | k + 1 < |marks| ensures !Falls(marks[k], marks[k + 1]) {
      NextMark(ws, es, expiry, k);
    }
    NeverFalls(marks, i, j);
  }

  /** Whatever does not end the process meets memory in step with the mark. */
  lemma InStepOrCrash(ws: seq<World>, es: seq<Event>, expiry: Id -> nat, i: nat)
    requires IsRun(ws, es, expiry) && EndsBehind(ws, es, expiry) && i < |es|
    ensures es[i].Crashes? || MarkInStep(ws[i])
  {
    hide Enabled, Step, LeavesMarkBehind, MarkInStep;
    if i == 0 || !LeavesMarkBehind(ws[i - 1], es[i - 1]) {
      RunMarkInStep(ws, es, expiry, i);
    }
  }

  lemma NextMark(ws: seq<World>, es: seq<Event>, expiry: Id -> nat, i: nat)
    requires IsRun(ws, es, expiry) && EndsBehind(ws, es, expiry) && i < |es|
    ensures !Falls(ws[i].d.mark, ws[i + 1].d.mark)
  {
    InStepOrCrash(ws, es, expiry, i);
    if !es[i].Crashes? {
      AcceptedNearMark(ws[i], es[i]);
    }
  }

  /** Over every run in which a process does not outlive a mark left behind, so
      with crashes at any point of a reply, the mark never falls and every
      accepted signed time is at least any earlier mark minus two seconds. */
  lemma MarkNeverFalls(ws: seq<World>, es: seq<Event>, expiry: Id -> nat, i: nat, j: nat)
    requires IsRun(ws, es, expiry) && EndsBehind(ws, es, expiry) && i <= j < |es|
    ensures !Falls(ws[i].d.mark, ws[j + 1].d.mark)
    ensures AcceptsReply(ws[j], es[j]) && ws[i].d.mark.Some? ==>
              es[j].r.controllerTime + ROLLBACK_TOLERANCE_MS >= ws[i].d.mark.value
  {
    MarkRises(ws, es, expiry, i, j);
    MarkRises(ws, es, expiry, i, j + 1);
    InStepOrCrash(ws, es, expiry, j);
    if !es[j].Crashes? {
      AcceptedNearMark(ws[j], es[j]);
    }
  }

  // ---- Challenges ---------------------------------------------------------------------

  /** A challenge is pending only from the call that began it to the next reply. */
  lemma PendingStep(w: World, e: Event)
    requires Enabled(w, e) && Step(w, e).process.Some?
    ensures var pending := Step(w, e).process.value.pending;
            if e.Challenges? then pending == Some(Challenge(e.value, e.boot))
            else if e.Replies? || e.Starts? then pending == None
            else w.process.Some? && pending == w.process.value.pending
  {
    if e.Replies? {
      ReplyMemory(w, e);
    } else if w.process.Some? && !e.Starts? && !e.Crashes? {
      OtherMemory(w, e);
    }
  }

  /** The event that began the pending challenge; no reply came since. */
  lemma {:induction false} PendingWasBegun(ws: seq<World>, es: seq<Event>, expiry: Id -> nat, j: nat) returns (m: nat)
    requires IsRun(ws, es, expiry) && j < |ws| && ws[j].process.Some? && ws[j].process.value.pending.Some?
    ensures m < j && es[m].Challenges? && ws[j].process.value.pending == Some(Challenge(es[m].value, es[m].boot))
    ensures forall k | m < k < j :: !es[k].Replies?
  {
    hide Step, Enabled;
    PendingStep(ws[j - 1], es[j - 1]);
    if es[j - 1].Challenges? {
      m := j - 1;
    } else {
      m := PendingWasBegun(ws, es, expiry, j - 1);
    }
  }

  /** Every challenge is answered at most once and within 35 s: an accepted reply
      answers a challenge begun after every earlier reply, accepted or not. */
  lemma OneReplyPerChallenge(ws: seq<World>, es: seq<Event>, expiry: Id -> nat, j: nat)
    requires IsRun(ws, es, expiry) && j < |es| && AcceptsReply(ws[j], es[j])
    ensures exists m ::
              && 0 <= m < j && es[m].Challenges? && es[m].value == es[j].r.challenge
              && es[m].boot <= es[j].boot <= es[m].boot + MAX_REPLY_DELAY_MS
              && forall k | m < k < j :: !es[k].Replies?
  {
    ReplyMemory(ws[j], es[j]);
    var m := PendingWasBegun(ws, es, expiry, j);
  }

  // ---- Trusted time ------------------------------------------------------------------

  /** The estimate is at most one round trip ahead of the signed time. */
  predicate TrustedOk(w: World) {
    w.process.Some? && w.process.value.trusted.Some? ==>
      var t := w.process.value.trusted.value;
      t.receivedAt <= w.boot && t.estimated <= t.signed + MAX_REPLY_DELAY_MS
  }

  lemma EstimateNear(r: Reply, sentAt: nat, boot: nat)
    requires Estimate(r, sentAt, boot).Some?
    ensures r.controllerTime <= Estimate(r, sentAt, boot).value <= r.controllerTime + MAX_REPLY_DELAY_MS
  {
  }

  lemma StepKeepsTrusted(w: World, e: Event)
    requires Enabled(w, e) && TrustedOk(w)
    ensures TrustedOk(Step(w, e))
  {
    if e.Replies? {
      ReplyMemory(w, e);
      var v := w.process.value;
      if CheckReply(v, e.r, e.nodeId, e.epoch, e.boot).Some? {
        EstimateNear(e.r, v.pending.value.sentAt, e.boot);
      }
    } else if w.process.Some? && !e.Starts? && !e.Crashes? {
      OtherMemory(w, e);
    }
  }

  lemma {:induction false} RunTrusted(ws: seq<World>, es: seq<Event>, expiry: Id -> nat, i: nat)
    requires IsRun(ws, es, expiry) && i < |ws|
    ensures TrustedOk(ws[i])
  {
    if i > 0 {
      RunTrusted(ws, es, expiry, i - 1);
      StepKeepsTrusted(ws[i - 1], es[i - 1]);
    }
  }

  /** When a reply replaces another, trusted time at any fixed boottime drops by
      at most 37 s: one reply delay and the tolerance. */
  lemma BoundedRegress(ws: seq<World>, es: seq<Event>, expiry: Id -> nat, i: nat, boot: nat)
    requires IsRun(ws, es, expiry) && i < |es| && AcceptsReply(ws[i], es[i]) && boot >= es[i].boot
    ensures var before, after := TrustedNow(ws[i].process.value, boot), TrustedNow(ws[i + 1].process.value, boot);
            before.Some? && after.Some? ==>
              after.value + MAX_REPLY_DELAY_MS + ROLLBACK_TOLERANCE_MS >= before.value
  {
    RunTrusted(ws, es, expiry, i);
    ReplyMemory(ws[i], es[i]);
  }

  // ---- A run in which the mark falls ------------------------------------------------------

  const NOTHING := World(Durable(G.Disk(None, 0), None, ""), None, 0, 0, {}, {}, map[])

  function LostMark(value: string, t: nat): Event {
    Replies(Reply(value, "n", 1, t, t), "n", 1, 0,
            ReplyIo(MarkUnsynced, [], G.Committed, [], R.Committed(true), []))
  }

  function Idle(pending: Option<Challenge>): Verifier {
    Verifier(pending, None, None, map[], None, map[], [], G.Journal(EMPTY, None), R.Revocations(R.NONE, {}))
  }

  function IdleWorld(pending: Option<Challenge>, mark: Option<nat>): World {
    NOTHING.(process := Some(Idle(pending)), d := NOTHING.d.(mark := mark))
  }

  lemma StartIdle()
    ensures Enabled(NOTHING, Starts(0, 0)) && Step(NOTHING, Starts(0, 0)) == IdleWorld(None, None)
  {
    R.RenderedMarksRead(R.NONE, []);
    assert R.RestrictedMarks(R.NONE, {}) == R.NONE;
  }

  /** A reply whose mark is renamed but not flushed leaves the mark and nothing
      else. */
  lemma LostMarkStep(value: string, t: nat, mark: Option<nat>)
    requires t <= 1_000_000
    ensures var w := IdleWorld(Some(Challenge(value, 0)), mark);
            Enabled(w, LostMark(value, t)) && Step(w, LostMark(value, t)) == IdleWorld(None, Some(t))
  {
    var v := Idle(Some(Challenge(value, 0)));
    assert CheckReply(v, LostMark(value, t).r, "n", 1, 0) == Some(t);
    assert G.KeptIds(EMPTY, t) == {};
    assert R.KeptMarks(R.NONE, t).retained.Keys == {};
    assert ExpiredIds(v, t, 0) == {};
  }

  /** A run that ends in `w`. */
  ghost predicate EndsIn(ws: seq<World>, es: seq<Event>, expiry: Id -> nat, n: nat, w: World) {
    IsRun(ws, es, expiry) && |es| == n && |ws| == n + 1 && ws[n] == w
  }

  lemma Extend(ws: seq<World>, es: seq<Event>, expiry: Id -> nat, n: nat, w: World, e: Event)
    requires EndsIn(ws, es, expiry, n, w) && Enabled(w, e) && Genuine(e, expiry)
    ensures EndsIn(ws + [Step(w, e)], es + [e], expiry, n + 1, Step(w, e))
  {
    var ws', es' := ws + [Step(w, e)], es + [e];
    forall i | 0 <= i < |es'|
      ensures Enabled(ws'[i], es'[i]) && Genuine(es'[i], expiry) && ws'[i + 1] == Step(ws'[i], es'[i])
    {
      if i < n {
        assert ws'[i] == ws[i] && ws'[i + 1] == ws[i + 1] && es'[i] == es[i];
      }
    }
  }

  lemma OneMore(ws: seq<World>, es: seq<Event>, expiry: Id -> nat, n: nat, w: World, e: Event)
    returns (ws': seq<World>, es': seq<Event>)
    requires EndsIn(ws, es, expiry, n, w) && Enabled(w, e) && Genuine(e, expiry)
    ensures EndsIn(ws', es', expiry, n + 1, Step(w, e))
    ensures ws' == ws + [Step(w, e)] && es' == es + [e]
  {
    hide Step, Enabled, IsRun;
    Extend(ws, es, expiry, n, w, e);
    ws', es' := ws + [Step(w, e)], es + [e];
  }

  lemma EmptyRun(expiry: Id -> nat)
    ensures EndsIn([NOTHING], [], expiry, 0, NOTHING)
  {
    assert J.DiskOk(NOTHING.d.disk);
  }

  /** Two replies whose mark writes are not flushed: the mark falls. */
  lemma MarkCanFall()
    ensures exists ws: seq<World>, es: seq<Event>, expiry: Id -> nat ::
              IsRun(ws, es, expiry) && |es| == 5 && Falls(ws[3].d.mark, ws[5].d.mark)
  {
    var expiry := (id: Id) => 0;
    EmptyRun(expiry);
    hide Step, Enabled, IsRun;
    StartIdle();
    var ws1, es1 := OneMore([NOTHING], [], expiry, 0, NOTHING, Starts(0, 0));
    var ws3, es3 := AskAndLose(ws1, es1, expiry, 1, "a", 100_000, None);
    var ws5, es5 := AskAndLose(ws3, es3, expiry, 3, "b", 50, Some(100_000));
    assert ws5[3] == ws3[3];
    assert IsRun(ws5, es5, expiry) && |es5| == 5 && Falls(ws5[3].d.mark, ws5[5].d.mark);
  }

  /** A challenge only changes what is pending. */
  lemma AskStep(w: World, value: string)
    requires w.process.Some? && w.boot == 0
    ensures Enabled(w, Challenges(value, 0)) && Step(w, Challenges(value, 0)) == Asked(w, value)
  {
  }

  function Asked(w: World, value: string): World
    requires w.process.Some?
  {
    w.(process := Some(w.process.value.(pending := Some(Challenge(value, 0)))))
  }

  /** A challenge and a reply whose mark write is not flushed. */
  lemma AskAndLose(
    ws: seq<World>, es: seq<Event>, expiry: Id -> nat, n: nat, value: string, t: nat, mark: Option<nat>)
    returns (ws': seq<World>, es': seq<Event>)
    requires EndsIn(ws, es, expiry, n, IdleWorld(None, mark)) && t <= 1_000_000
    ensures EndsIn(ws', es', expiry, n + 2, IdleWorld(None, Some(t))) && ws <= ws'
  {
    hide Step, Enabled, IsRun;
    AskStep(IdleWorld(None, mark), value);
    var ws1, es1 := OneMore(ws, es, expiry, n, IdleWorld(None, mark), Challenges(value, 0));
    LostMarkStep(value, t, mark);
    ws', es' := OneMore(ws1, es1, expiry, n + 1, IdleWorld(Some(Challenge(value, 0)), mark), LostMark(value, t));
  }

  // ---- A run that reaches the bound on trusted time ------------------------------------------

  /** A world without grants, records or tombstones. */
  function Calm(boot: nat, mark: Option<nat>, pending: Option<Challenge>, trusted: Option<TrustedTime>): World {
    NOTHING.(boot := boot, process := Some(Idle(pending).(trusted := trusted, highest := mark)),
             d := NOTHING.d.(mark := mark))
  }

  function PlainReply(value: string, t: nat, boot: nat): Event {
    Replies(Reply(value, "n", 1, t, t), "n", 1, boot,
            ReplyIo(MarkWritten, [], G.Committed, [], R.Committed(true), []))
  }

  lemma CalmAsk(boot: nat, mark: Option<nat>, trusted: Option<TrustedTime>, value: string)
    ensures var w := Calm(boot, mark, None, trusted);
            && Enabled(w, Challenges(value, boot))
            && Step(w, Challenges(value, boot)) == Calm(boot, mark, Some(Challenge(value, boot)), trusted)
  {
  }

  lemma CalmReply(sent: nat, mark: Option<nat>, trusted: Option<TrustedTime>, value: string, t: nat, boot: nat)
    requires sent <= boot
    requires CheckReply(Idle(Some(Challenge(value, sent))).(trusted := trusted, highest := mark),
                        Reply(value, "n", 1, t, t), "n", 1, boot).Some?
    ensures var w, e := Calm(sent, mark, Some(Challenge(value, sent)), trusted), PlainReply(value, t, boot);
            && Enabled(w, e) && AcceptsReply(w, e)
            && Step(w, e) == Calm(boot, Some(Raised(mark, t)), None, Some(TrustedTime(t, t + (boot - sent), boot)))
  {
    var w, e := Calm(sent, mark, Some(Challenge(value, sent)), trusted), PlainReply(value, t, boot);
    var v := w.process.value;
    assert CheckReply(v, e.r, "n", 1, boot) == Some(t + (boot - sent));
    assert G.KeptIds(EMPTY, t) == {};
    assert R.KeptMarks(R.NONE, t).retained.Keys == {};
    assert ExpiredIds(v, t + (boot - sent), boot) == {};
    assert G.Prune(w.d.disk, v.journal, t, [], G.Committed) == (w.d.disk, v.journal, true);
    assert R.Prune("", v.revocations, t, [], R.Committed(true)) == ("", v.revocations, true);
  }

  /** A challenge and its answer. */
  lemma AskAndAnswer(
    ws: seq<World>, es: seq<Event>, expiry: Id -> nat, n: nat,
    sent: nat, mark: Option<nat>, trusted: Option<TrustedTime>, value: string, t: nat, boot: nat)
    returns (ws': seq<World>, es': seq<Event>)
    requires EndsIn(ws, es, expiry, n, Calm(sent, mark, None, trusted)) && sent <= boot
    requires CheckReply(Idle(Some(Challenge(value, sent))).(trusted := trusted, highest := mark),
                        Reply(value, "n", 1, t, t), "n", 1, boot).Some?
    ensures EndsIn(ws', es', expiry, n + 2,
                   Calm(boot, Some(Raised(mark, t)), None, Some(TrustedTime(t, t + (boot - sent), boot))))
    ensures ws'[n + 1] == Calm(sent, mark, Some(Challenge(value, sent)), trusted)
    ensures es'[n + 1] == PlainReply(value, t, boot)
    ensures Enabled(ws'[n + 1], es'[n + 1]) && AcceptsReply(ws'[n + 1], es'[n + 1])
  {
    hide Step, Enabled, IsRun, AcceptsReply, Calm, PlainReply, CheckReply;
    CalmAsk(sent, mark, trusted, value);
    CalmReply(sent, mark, trusted, value, t, boot);
    var w1 := Calm(sent, mark, Some(Challenge(value, sent)), trusted);
    var ws1, es1 := OneMore(ws, es, expiry, n, Calm(sent, mark, None, trusted), Challenges(value, sent));
    ws', es' := OneMore(ws1, es1, expiry, n + 1, w1, PlainReply(value, t, boot));
  }

  lemma TightChecks()
    ensures CheckReply(Idle(Some(Challenge("a", 0))).(trusted := None, highest := None),
                       Reply("a", "n", 1, 100_000, 100_000), "n", 1, 35_000).Some?
    ensures CheckReply(Idle(Some(Challenge("b", 35_000))).(
                         trusted := Some(TrustedTime(100_000, 135_000, 35_000)), highest := Some(100_000)),
                       Reply("b", "n", 1, 98_000, 98_000), "n", 1, 35_000).Some?
  {
  }

  lemma TightTimes(pending: Option<Challenge>, mark: Option<nat>)
    ensures TrustedNow(Calm(35_000, mark, pending, Some(TrustedTime(100_000, 135_000, 35_000))).process.value, 35_000)
         == Some(135_000)
    ensures TrustedNow(Calm(35_000, mark, None, Some(TrustedTime(98_000, 98_000, 35_000))).process.value, 35_000)
         == Some(98_000)
  {
  }

  /** The bound of `BoundedRegress` is reached: an answer that took 35 s is
      replaced by an immediate one signed two seconds earlier. */
  lemma RegressIsTight()
    ensures exists ws: seq<World>, es: seq<Event>, expiry: Id -> nat ::
              && IsRun(ws, es, expiry) && |es| == 5 && AcceptsReply(ws[4], es[4])
              && TrustedNow(ws[4].process.value, es[4].boot) == Some(135_000)
              && TrustedNow(ws[5].process.value, es[4].boot)
                 == Some(135_000 - MAX_REPLY_DELAY_MS - ROLLBACK_TOLERANCE_MS)
  {
    var expiry := (id: Id) => 0;
    var ws1, es1 := StartedRun(expiry);
    TightChecks();
    TightTimes(Some(Challenge("b", 35_000)), Some(100_000));
    hide Step, Enabled, IsRun, AcceptsReply, Calm, CheckReply, TrustedNow;
    var first := Some(TrustedTime(100_000, 135_000, 35_000));
    var ws3, es3 := AskAndAnswer(ws1, es1, expiry, 1, 0, None, None, "a", 100_000, 35_000);
    var ws5, es5 := AskAndAnswer(ws3, es3, expiry, 3, 35_000, Some(100_000), first, "b", 98_000, 35_000);
    assert es5[4].boot == 35_000;
    assert IsRun(ws5, es5, expiry) && AcceptsReply(ws5[4], es5[4]);
  }

  lemma StartedRun(expiry: Id -> nat) returns (ws: seq<World>, es: seq<Event>)
    ensures EndsIn(ws, es, expiry, 1, Calm(0, None, None, None))
  {
    EmptyRun(expiry);
    StartIdle();
    hide Step, Enabled, IsRun;
    ws, es := OneMore([NOTHING], [], expiry, 0, NOTHING, Starts(0, 0));
    assert IdleWorld(None, None) == Calm(0, None, None, None);
  }
}
