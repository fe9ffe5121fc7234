/** The reply that breaks one use, as a run: a reply a day ahead prunes the
    journal and then fails on the revocation file, so memory keeps the old time
    while the consumption is gone; the same grant is delivered and handed out
    again. On a journal with a header the second record then expires no later
    than the pruned boundary. */
module DoubleUse {
  import opened Text
  import opened JournalLine
  import opened LineFile
  import opened JournalFile
  import G = GrantJournal
  import J = JournalRuns
  import R = RevocationJournal
  import opened GrantVerifier
  import opened VerifierRuns
  import opened SignedTime
  import P = PrunedBoundary

  const T0: nat := 1_000_000
  const DAY_LATER: nat := T0 + 60_000 + G.RETENTION_MS

  /** The parties of the run: one grant, the policy and registration it names,
      and another grant that is revoked. */
  datatype Cast = Cast(g: Grant, p: Policy, reg: Registration, a: Authorization, keyId: string, other: Id)

  predicate ValidCast(c: Cast) {
    && Bindings(c.g, c.g.nodeId, c.keyId, c.p, c.reg) && NamesGrant(c.a, c.g, c.g.id)
    && ValidConsumption(Intent(c.g)) && |ConsumptionLine(Intent(c.g))| <= 10_000
    && c.g.issuedAt == T0 && c.g.expiresAt == T0 + 60_000 && c.g.issuerEpoch == 1 && c.g.ceilingSeconds == 60
    && c.p.ceilingSeconds == 60 && c.reg.ceilingSeconds == 60 && c.other != c.g.id
  }

  // ---- Journals without records ---------------------------------------------------------

  /** The journal has no header, or one bound to the grant's node and epoch. */
  predicate ValidHeader(c: Cast, h: Option<History>) {
    h.Some? ==> ValidHistory(h.value) && h.value.IsBound() && h.value.nodeId == c.g.nodeId && h.value.highestEpoch == 1
  }

  function Clean(h: Option<History>): Loaded { EMPTY.(history := h) }

  /** A journal without records that this process has read. */
  predicate Blank(disk: G.Disk, journal: G.Journal, h: Option<History>) {
    && journal.state == Clean(h) && G.Text0(disk.file) == HeaderText(h)
    && journal.revision == if disk.file.None? then None else Some(disk.version)
  }

  function Disk0(h: Option<History>): G.Disk {
    G.Disk(match h case None => None case Some(x) => Some(HistoryLine(x)), 0)
  }

  function Journal0(h: Option<History>): G.Journal { G.Journal(Clean(h), if h.None? then None else Some(0)) }

  /** After recording the grant's intent. */
  function Spent(c: Cast, disk: G.Disk, h: Option<History>): (G.Disk, G.Journal) {
    (G.Disk(Some(HeaderText(h) + ConsumptionLine(Intent(c.g))), disk.version + 1),
     G.Journal(With(Clean(h), Intent(c.g)), Some(disk.version + 1)))
  }

  /** The header after the record was pruned. */
  function Later(c: Cast, h: Option<History>): Option<History> {
    match h case None => None case Some(x) => Some(x.(prunedThrough := Max(x.prunedThrough, c.g.expiresAt)))
  }

  function Disk2(c: Cast, h: Option<History>): G.Disk { G.Disk(Some(HeaderText(Later(c, h))), 2) }

  function Journal2(c: Cast, h: Option<History>): G.Journal { G.Journal(Clean(Later(c, h)), Some(2)) }

  lemma HeaderShort(h: Option<History>)
    requires h.Some? ==> ValidHistory(h.value)
    ensures |HeaderText(h)| <= 3_000
  {
    if h.Some? {
      HistoryBodyFacts(h.value);
    }
  }

  lemma RecordedBlank(c: Cast, disk: G.Disk, journal: G.Journal, h: Option<History>)
    requires ValidCast(c) && ValidHeader(c, h) && Blank(disk, journal, h)
    ensures G.Record(disk, journal, Intent(c.g), c.g.nodeId, G.Durable)
         == (Spent(c, disk, h).0, Spent(c, disk, h).1, true)
  {
    hide ConsumptionLine, HistoryLine;
    HeaderShort(h);
    assert G.Synchronize(disk, journal) == (disk, journal, true);
    assert G.MayRecord(journal.state, |G.Text0(disk.file)|, Intent(c.g), c.g.nodeId);
  }

  /** What the prune a day later keeps. */
  lemma DayLaterKeeps(c: Cast, h: Option<History>)
    requires ValidCast(c) && ValidHeader(c, h)
    ensures G.KeptIds(With(Clean(h), Intent(c.g)), DAY_LATER) == {}
    ensures G.Pruned(With(Clean(h), Intent(c.g)), DAY_LATER) == Clean(Later(c, h))
  {
    var l := With(Clean(h), Intent(c.g));
    assert l.consumed == map[c.g.id := c.g.expiresAt];
    assert l.consumed.Keys - G.KeptIds(l, DAY_LATER) == {c.g.id};
    assert G.Largest(l.consumed, {c.g.id}) == c.g.expiresAt;
    var m := G.Pruned(l, DAY_LATER);
    assert m.consumed == map[] && m.bindings == map[];
  }

  /** The prune a day later empties the journal. */
  lemma DayLaterPrune(c: Cast, h: Option<History>)
    requires ValidCast(c) && ValidHeader(c, h)
    ensures var (disk, journal) := Spent(c, Disk0(h), h);
            && G.Synchronize(disk, journal) == (disk, journal, true) && G.KeptIds(journal.state, DAY_LATER) == {}
            && G.Prune(disk, journal, DAY_LATER, [], G.Committed) == (Disk2(c, h), Journal2(c, h), true)
  {
    hide ConsumptionLine, HistoryLine;
    var (disk, journal) := Spent(c, Disk0(h), h);
    DayLaterKeeps(c, h);
    HeaderShort(Later(c, h));
    assert c.g.id in journal.state.consumed;
    assert Elements([]) == {};
    assert Rendered(Clean(Later(c, h)), []) == HeaderText(Later(c, h));
  }

  // ---- The world at trusted time T0 -----------------------------------------------------

  /** A world with trusted time T0, waiting at boottime zero. */
  function At(c: Cast, disk: G.Disk, journal: G.Journal, mark: nat, revoked: bool, held: bool, spent: bool): World {
    var marks := if revoked then R.Tombstones(map[c.other := T0 + 1], map[c.other := Observation(NotReceived, 1)])
                 else R.NONE;
    var v := Verifier(
               None, Some(TrustedTime(T0, T0, 0)), Some(T0),
               if held then map[c.g.id := Accepted(c.g, 60_000, "d")] else map[], Some(1), map[], [], journal,
               R.Revocations(marks, if revoked then {c.other} else {}));
    World(Durable(disk, Some(mark), ""), Some(v), 0, 0, if spent then {c.g.id} else {},
          if revoked then {c.other} else {}, if held || spent then map[c.g.id := 60_000] else map[])
  }

  function Delivery(c: Cast): Event { Delivers(c.g, "d", c.g.nodeId, c.keyId, c.p, c.reg, 0) }

  function Use(c: Cast): Event { Consumes(c.g.id, c.a, c.g.policyVersion, 0, G.Durable) }

  function Answer(c: Cast, value: string, t: nat, revoke: R.RewriteIo): Event {
    Replies(Reply(value, c.g.nodeId, 1, t, t), c.g.nodeId, 1, 0,
            ReplyIo(MarkWritten, [], G.Committed, [], revoke, []))
  }

  /** Delivering the grant when nothing is known of it accepts it. */
  lemma Delivered(c: Cast, disk: G.Disk, journal: G.Journal, mark: nat, spent: bool)
    requires ValidCast(c) && journal.state.consumed == map[]
    ensures Enabled(At(c, disk, journal, mark, true, false, spent), Delivery(c))
    ensures Step(At(c, disk, journal, mark, true, false, spent), Delivery(c))
         == At(c, disk, journal, mark, true, true, spent)
  {
    var v := At(c, disk, journal, mark, true, false, spent).process.value;
    assert TrustedNow(v, 0) == Some(T0);
    assert MissingDenial(v, c.g.id) == Unknown;
    assert Deadline(c.g, c.p, c.reg, T0, 0) == Some(60_000);
    var (v', result) := AcceptGrant(v, c.g, "d", c.g.nodeId, c.keyId, c.p, c.reg, 0);
    assert result == Fresh;
    assert v'.accepted == map[c.g.id := Accepted(c.g, 60_000, "d")];
  }

  /** Using the held grant against a blank journal hands it out. */
  lemma Used(c: Cast, disk: G.Disk, journal: G.Journal, h: Option<History>, mark: nat, spent: bool)
    requires ValidCast(c) && ValidHeader(c, h) && Blank(disk, journal, h)
    ensures var w := At(c, disk, journal, mark, true, true, spent);
            && Enabled(w, Use(c)) && HandsOut(w, Use(c))
            && Step(w, Use(c)) == At(c, Spent(c, disk, h).0, Spent(c, disk, h).1, mark, true, false, true)
  {
    UsedInMemory(c, disk, journal, h, mark, spent);
    hide Consume, Spent, ValidCast, Blank, ValidHeader;
    var w := At(c, disk, journal, mark, true, true, spent);
    var v' := w.process.value.(journal := Spent(c, disk, h).1, accepted := map[]);
    ConsumeStep(w, Use(c), w.d.(disk := Spent(c, disk, h).0), v');
    assert w.spent + {c.g.id} == {c.g.id};
  }

  /** The world a successful consumption leaves. */
  lemma ConsumeStep(w: World, e: Event, d: Durable, v: Verifier)
    requires e.Consumes? && w.process.Some? && e.boot == w.boot
    requires Consume(w.d, w.process.value, e.id, e.a, e.policyVersion, e.boot, e.appendIo) == (d, v, true)
    ensures Enabled(w, e) && HandsOut(w, e)
    ensures Step(w, e) == w.(d := d, process := Some(v), spent := w.spent + {e.id})
  {
    hide Consume;
  }

  lemma UsedInMemory(c: Cast, disk: G.Disk, journal: G.Journal, h: Option<History>, mark: nat, spent: bool)
    requires ValidCast(c) && ValidHeader(c, h) && Blank(disk, journal, h)
    ensures var w := At(c, disk, journal, mark, true, true, spent);
            Consume(w.d, w.process.value, c.g.id, c.a, c.g.policyVersion, 0, G.Durable)
            == (w.d.(disk := Spent(c, disk, h).0),
                w.process.value.(journal := Spent(c, disk, h).1, accepted := map[]), true)
  {
    var v := At(c, disk, journal, mark, true, true, spent).process.value;
    assert Validate(v, c.g.id, c.a, c.g.policyVersion, 0) == None;
    RecordedBlank(c, disk, journal, h);
    hide Spent, G.Record;
    assert v.accepted - {c.g.id} == map[];
  }

  /** The world a reply without expiring grants leaves once its mark and prune are
      written, by what the revocation file does. */
  lemma ReplyStep(w: World, e: Event, t: nat, disk: G.Disk, journal: G.Journal, r: R.Revocations, swept: bool)
    requires w.process.Some? && e.Replies? && e.boot == w.boot && e.io.mark.MarkWritten? && e.io.expiredOrder == []
    requires CheckReply(w.process.value, e.r, e.nodeId, e.epoch, e.boot) == Some(t) && t == e.r.controllerTime
    requires ReplyOrders(w.d, w.process.value, e.r, t, e.boot, e.io)
    requires G.Prune(w.d.disk, w.process.value.journal, t, e.io.pruneOrder, e.io.prune) == (disk, journal, true)
    requires R.Prune(w.d.revoked, w.process.value.revocations, t, e.io.revokeOrder, e.io.revoke)
          == (w.d.revoked, r, swept)
    ensures var v := w.process.value.(pending := None, journal := journal, revocations := r);
            var raised := Some(Raised(w.process.value.highest, t));
            && Enabled(w, e)
            && Step(w, e) == w.(
                 d := w.d.(mark := raised, disk := disk),
                 process := Some(if swept then v.(highest := raised, trusted := Some(TrustedTime(t, t, e.boot)))
                                 else v))
  {
    hide G.Prune, R.Prune, CheckReply, ReplyOrders, Raised;
  }

  /** The reply a day ahead passes every check; the other grant's tombstone is
      due, so the revocation file must be replaced. */
  lemma DayLaterChecks(c: Cast, disk: G.Disk, journal: G.Journal)
    ensures var v := Asked(At(c, disk, journal, T0, true, false, true), "b").process.value;
            var e := Answer(c, "b", DAY_LATER, R.NotCommitted);
            && CheckReply(v, e.r, e.nodeId, 1, 0) == Some(DAY_LATER) && ExpiredIds(v, DAY_LATER, 0) == {}
            && R.KeptMarks(v.revocations.marks, DAY_LATER).retained.Keys == {} == Elements([])
            && R.Prune("", v.revocations, DAY_LATER, [], R.NotCommitted) == ("", v.revocations, false)
  {
    var v := Asked(At(c, disk, journal, T0, true, false, true), "b").process.value;
    assert Elements([]) == {};
    assert R.KeptMarks(v.revocations.marks, DAY_LATER).retained.Keys == {};
    assert c.other in v.revocations.marks.retained;
  }

  /** The reply a day ahead: the journal is emptied, then the revocation file
      cannot be replaced and memory keeps its old time. */
  lemma DayLater(c: Cast, h: Option<History>)
    requires ValidCast(c) && ValidHeader(c, h)
    ensures var (disk, journal) := Spent(c, Disk0(h), h);
            var w := Asked(At(c, disk, journal, T0, true, false, true), "b");
            && Enabled(w, Answer(c, "b", DAY_LATER, R.NotCommitted))
            && Step(w, Answer(c, "b", DAY_LATER, R.NotCommitted))
               == At(c, Disk2(c, h), Journal2(c, h), DAY_LATER, true, false, true)
  {
    DayLaterPrune(c, h);
    hide Spent, Disk2, Journal2, G.Prune, G.Synchronize, G.KeptIds, Disk0, Step, Enabled, ValidCast, ValidHeader;
    hide CheckReply, R.Prune, R.KeptMarks, ExpiredIds;
    var disk, journal := Spent(c, Disk0(h), h).0, Spent(c, Disk0(h), h).1;
    var w := Asked(At(c, disk, journal, T0, true, false, true), "b");
    DayLaterChecks(c, disk, journal);
    ReplyStep(w, Answer(c, "b", DAY_LATER, R.NotCommitted), DAY_LATER, Disk2(c, h), Journal2(c, h),
              w.process.value.revocations, false);
  }

  // ---- Getting there ----------------------------------------------------------------------

  function World0(h: Option<History>): World { NOTHING.(d := NOTHING.d.(disk := Disk0(h))) }

  /** Started, without trusted time. */
  function Waiting(h: Option<History>, pending: Option<Challenge>, epoch: Option<nat>): World {
    World0(h).(process := Some(Idle(pending).(journal := Journal0(h), epoch := epoch)))
  }

  lemma HeaderFile(h: History)
    requires ValidHistory(h)
    ensures Load(HistoryLine(h)) == Some(Clean(Some(h))) && AfterRead(HistoryLine(h)) == HistoryLine(h)
  {
    J.GenesisLoads(h);
    RepairedWhole(HistoryLine(h));
  }

  lemma OpenBlank(h: Option<History>)
    requires h.Some? ==> ValidHistory(h.value)
    ensures G.Open(Disk0(h)) == (Disk0(h), Some(Journal0(h))) && J.DiskOk(Disk0(h))
    ensures Blank(Disk0(h), Journal0(h), h)
  {
    hide HistoryLine, Load, AfterRead;
    if h.Some? {
      HeaderFile(h.value);
    }
  }

  lemma StartBlank(h: Option<History>)
    requires h.Some? ==> ValidHistory(h.value)
    ensures Enabled(World0(h), Starts(0, 0)) && Step(World0(h), Starts(0, 0)) == Waiting(h, None, None)
  {
    OpenBlank(h);
    hide Disk0, G.Open;
    R.RenderedMarksRead(R.NONE, []);
    assert R.RestrictedMarks(R.NONE, {}) == R.NONE;
  }

  lemma BlankPrune(disk: G.Disk, journal: G.Journal, h: Option<History>, t: nat)
    requires Blank(disk, journal, h)
    ensures G.Synchronize(disk, journal) == (disk, journal, true) && G.KeptIds(journal.state, t) == {}
    ensures G.Prune(disk, journal, t, [], G.Committed) == (disk, journal, true)
  {
  }

  lemma FirstReply(c: Cast, h: Option<History>)
    requires ValidCast(c) && ValidHeader(c, h)
    ensures var x := Waiting(h, Some(Challenge("a", 0)), Some(1));
            && Enabled(x, Answer(c, "a", T0, R.Committed(true)))
            && Step(x, Answer(c, "a", T0, R.Committed(true)))
               == At(c, Disk0(h), Journal0(h), T0, false, false, false)
  {
    OpenBlank(h);
    BlankPrune(Disk0(h), Journal0(h), h, T0);
    hide Disk0, Journal0, G.Prune, G.Synchronize, G.KeptIds, Blank, Step, Enabled, ValidCast, ValidHeader;
    var e := Answer(c, "a", T0, R.Committed(true));
    var w := Waiting(h, Some(Challenge("a", 0)), Some(1));
    var v := w.process.value;
    assert R.KeptMarks(R.NONE, T0).retained.Keys == {};
    assert ExpiredIds(v, T0, 0) == {};
    ReplyStep(w, e, T0, Disk0(h), Journal0(h), v.revocations, true);
  }

  lemma RevokeOther(c: Cast, disk: G.Disk, journal: G.Journal)
    requires ValidCast(c) && journal.state.consumed == map[]
    ensures var w := At(c, disk, journal, T0, false, false, false);
            && Enabled(w, Revokes(c.other, T0 + 1, 1, R.Unopened))
            && Step(w, Revokes(c.other, T0 + 1, 1, R.Unopened)) == At(c, disk, journal, T0, true, false, false)
  {
    var w := At(c, disk, journal, T0, false, false, false);
    var t := Tombstone(c.other, T0 + 1, Some(Observation(NotReceived, 1)));
    var r := R.Revocations(R.NONE, {});
    var (file, m, ok) := R.Record("", r, t, R.Unopened);
    assert m.marks.retained == map[c.other := T0 + 1];
    assert m.marks.outcomes == map[c.other := Observation(NotReceived, 1)];
    assert m.unpersisted == {c.other};
    assert file == "" && !ok;
    assert RevocationOutcome(w.process.value, c.other) == NotReceived;
  }

  const EPOCH := Withdraws(NewEpoch(1), [])

  lemma FirstEpoch(h: Option<History>)
    ensures Enabled(Waiting(h, None, None), EPOCH)
    ensures Step(Waiting(h, None, None), EPOCH) == Waiting(h, None, Some(1))
  {
    hide Disk0, Journal0;
    assert HitIds(Waiting(h, None, None).process.value, NewEpoch(1)) == {};
  }

  lemma FirstAsk(h: Option<History>)
    ensures Enabled(Waiting(h, None, Some(1)), Challenges("a", 0))
    ensures Step(Waiting(h, None, Some(1)), Challenges("a", 0)) == Waiting(h, Some(Challenge("a", 0)), Some(1))
  {
    hide Disk0, Journal0;
  }

  lemma BlankRun(h: Option<History>, expiry: Id -> nat)
    requires h.Some? ==> ValidHistory(h.value)
    ensures EndsIn([World0(h)], [], expiry, 0, World0(h))
  {
    OpenBlank(h);
    hide Disk0, G.Open, J.DiskOk;
  }

  lemma Opening(c: Cast, h: Option<History>, expiry: Id -> nat) returns (ws: seq<World>, es: seq<Event>)
    requires ValidCast(c) && ValidHeader(c, h)
    ensures EndsIn(ws, es, expiry, 5, At(c, Disk0(h), Journal0(h), T0, true, false, false)) && ws[0] == World0(h)
  {
    hide Step, Enabled, IsRun, World0, Waiting, At, Disk0, ValidCast;
    BlankRun(h, expiry);
    StartBlank(h);
    var ws1, es1 := OneMore([World0(h)], [], expiry, 0, World0(h), Starts(0, 0));
    FirstEpoch(h);
    var ws2, es2 := OneMore(ws1, es1, expiry, 1, Waiting(h, None, None), EPOCH);
    FirstAsk(h);
    var ws3, es3 := OneMore(ws2, es2, expiry, 2, Waiting(h, None, Some(1)), Challenges("a", 0));
    FirstReply(c, h);
    var ws4, es4 := OneMore(ws3, es3, expiry, 3, Waiting(h, Some(Challenge("a", 0)), Some(1)),
                            Answer(c, "a", T0, R.Committed(true)));
    RevokeOther(c, Disk0(h), Journal0(h));
    ws, es := OneMore(ws4, es4, expiry, 4, At(c, Disk0(h), Journal0(h), T0, false, false, false),
                      Revokes(c.other, T0 + 1, 1, R.Unopened));
  }

  /** Delivered, used: two more events on a blank journal. */
  lemma DeliveredAndUsed(
    c: Cast, ws: seq<World>, es: seq<Event>, expiry: Id -> nat, n: nat,
    disk: G.Disk, journal: G.Journal, h: Option<History>, mark: nat, spent: bool)
    returns (ws': seq<World>, es': seq<Event>)
    requires ValidCast(c) && ValidHeader(c, h) && expiry(c.g.id) == c.g.expiresAt && Blank(disk, journal, h)
    requires EndsIn(ws, es, expiry, n, At(c, disk, journal, mark, true, false, spent))
    ensures EndsIn(ws', es', expiry, n + 2, At(c, Spent(c, disk, h).0, Spent(c, disk, h).1, mark, true, false, true))
    ensures ws <= ws' && es <= es' && es'[n + 1] == Use(c) && HandsOut(ws'[n + 1], Use(c))
  {
    hide Step, Enabled, IsRun, At, Spent, HandsOut;
    Delivered(c, disk, journal, mark, spent);
    Used(c, disk, journal, h, mark, spent);
    var ws1, es1 := OneMore(ws, es, expiry, n, At(c, disk, journal, mark, true, false, spent), Delivery(c));
    ws', es' := OneMore(ws1, es1, expiry, n + 1, At(c, disk, journal, mark, true, true, spent), Use(c));
  }

  /** The first use, then the reply a day ahead. */
  lemma UsedThenDayLater(c: Cast, h: Option<History>, expiry: Id -> nat) returns (ws: seq<World>, es: seq<Event>)
    requires ValidCast(c) && ValidHeader(c, h) && expiry(c.g.id) == c.g.expiresAt
    ensures EndsIn(ws, es, expiry, 9, At(c, Disk2(c, h), Journal2(c, h), DAY_LATER, true, false, true))
    ensures ws[0] == World0(h) && es[6] == Use(c) && HandsOut(ws[6], Use(c))
  {
    OpenBlank(h);
    hide Step, Enabled, IsRun, Spent, HandsOut, Disk0, Journal0, Disk2, Journal2, Blank, ValidCast, World0, ValidHeader;
    var d0 := Disk0(h);
    var ws0, es0 := Opening(c, h, expiry);
    var ws1, es1 := DeliveredAndUsed(c, ws0, es0, expiry, 5, d0, Journal0(h), h, T0, false);
    var w7 := At(c, Spent(c, d0, h).0, Spent(c, d0, h).1, T0, true, false, true);
    AskStep(w7, "b");
    var ws2, es2 := OneMore(ws1, es1, expiry, 7, w7, Challenges("b", 0));
    DayLater(c, h);
    ws, es := OneMore(ws2, es2, expiry, 8, Asked(w7, "b"), Answer(c, "b", DAY_LATER, R.NotCommitted));
  }

  lemma BlankLater(c: Cast, h: Option<History>)
    requires ValidCast(c) && ValidHeader(c, h)
    ensures Blank(Disk2(c, h), Journal2(c, h), Later(c, h)) && ValidHeader(c, Later(c, h))
  {
    hide HistoryLine, ConsumptionLine;
  }

  /** At most once fails without its hypothesis: every cast and every header give
      a run whose seventh and eleventh events hand out the same grant. */
  lemma HandedOutTwice(c: Cast, h: Option<History>, expiry: Id -> nat) returns (ws: seq<World>, es: seq<Event>)
    requires ValidCast(c) && ValidHeader(c, h) && expiry(c.g.id) == c.g.expiresAt
    ensures IsRun(ws, es, expiry) && |es| == 11 && |ws| == 12 && ws[0] == World0(h) && es[6] == Use(c) == es[10]
    ensures HandsOut(ws[6], es[6]) && HandsOut(ws[10], es[10])
    ensures ws[11].process.Some? && ws[11].d.disk == Spent(c, Disk2(c, h), Later(c, h)).0
    ensures ws[11].process.value.journal == Spent(c, Disk2(c, h), Later(c, h)).1
  {
    BlankLater(c, h);
    hide Step, Enabled, IsRun, Spent, HandsOut, World0, Disk2, Journal2, Later, Blank, ValidHeader, ValidCast;
    var ws1, es1 := UsedThenDayLater(c, h, expiry);
    ws, es := DeliveredAndUsed(c, ws1, es1, expiry, 9, Disk2(c, h), Journal2(c, h), Later(c, h), DAY_LATER, true);
    assert ws[6] == ws1[6] && es[6] == es1[6];
  }

  // ---- Concrete runs --------------------------------------------------------------------------

  function Sample(): Cast {
    Cast(Grant("g", "o", "n", "w", "i", "u", "s", "k", 1, 1, "a", File, "blindpass-node", 1, T0, T0 + 60_000, 60),
         Policy(1, 60, {"a"}, {File}), Registration("n", "w", "u", "s", None, "active", 1, 1, 60, File),
         Authorization("n", "w", "u", "i", "consume:g"), "k", "x")
  }

  lemma LineLength(c: Consumption)
    requires ValidConsumption(c) && c.expiresAt <= MAX_SAFE_INTEGER && c.binding.Some?
    ensures |ConsumptionLine(c)| <= 10_000
  {
    SafeDigits(c.expiresAt);
    SafeDigits(c.binding.value.issuerEpoch);
    var sh := CONSUMPTION_SHAPE;
    assert |sh.open| <= 100 && |sh.numberSep| <= 100 && |sh.wordSep| <= 100 && |sh.lastSep| <= 100;
  }

  lemma SampleValid()
    ensures ValidCast(Sample())
  {
    var c := Sample();
    assert IsIdChar('g') && IsIdChar('o');
    assert c.p.allowedActions == {"a"} && c.g.action == "a";
    assert "consume:" + c.g.id == "consume:g";
    LineLength(Intent(c.g));
  }

  /** The concrete run: one grant handed out twice. */
  lemma AtMostOnceCanFail()
    ensures exists ws: seq<World>, es: seq<Event>, expiry: Id -> nat, i: nat, j: nat ::
              && IsRun(ws, es, expiry) && i < j < |es|
              && HandsOut(ws[i], es[i]) && HandsOut(ws[j], es[j]) && es[i].id == es[j].id
  {
    SampleValid();
    hide IsRun, HandsOut, ValidCast, Spent, Disk2, World0;
    var expiry := (id: Id) => T0 + 60_000;
    var ws, es := HandedOutTwice(Sample(), None, expiry);
    var i: nat, j: nat := 6, 10;
    assert IsRun(ws, es, expiry) && i < j < |es|;
    assert HandsOut(ws[i], es[i]) && HandsOut(ws[j], es[j]) && es[i].id == es[j].id;
  }

  function SampleHeader(): History {
    History(seq(43, _ => 'A'), "t", "n", "k", 0, 1)
  }

  lemma HeaderValid()
    ensures ValidHeader(Sample(), Some(SampleHeader()))
  {
    var h := SampleHeader();
    assert IsNonce(h.historyId);
    assert IsOpaqueId("t") && IsOpaqueId("n") && IsOpaqueId("k");
  }

  lemma BlankBoundary(h: History)
    requires ValidHistory(h) && h.prunedThrough == 0
    ensures P.BoundaryOk(World0(Some(h)))
  {
    hide Load, HistoryLine;
    HeaderFile(h);
    assert J.Current(World0(Some(h)).d.disk) == Clean(Some(h));
  }

  /** The second record is not above the boundary that the first one raised. */
  lemma SpentAgain(c: Cast, h: History)
    requires ValidCast(c) && ValidHeader(c, Some(h)) && h.prunedThrough < c.g.expiresAt
    ensures !J.AbovePruned(Spent(c, Disk2(c, Some(h)), Later(c, Some(h))).1.state)
  {
    var l := Spent(c, Disk2(c, Some(h)), Later(c, Some(h))).1.state;
    assert l.consumed == map[c.g.id := c.g.expiresAt];
    assert c.g.id in l.consumed && l.history.value.prunedThrough == c.g.expiresAt;
  }

  /** The same run on a journal with a header: the last record added expires no
      later than the pruned boundary. */
  lemma Overtaken(c: Cast, h: History, expiry: Id -> nat) returns (ws: seq<World>, es: seq<Event>)
    requires ValidCast(c) && ValidHeader(c, Some(h)) && h.prunedThrough == 0 && expiry(c.g.id) == c.g.expiresAt
    ensures IsRun(ws, es, expiry) && |es| == 11 && |ws| == 12 && P.BoundaryOk(ws[0])
    ensures !J.AbovePruned(J.Current(ws[11].d.disk))
  {
    BlankBoundary(h);
    SpentAgain(c, h);
    SpentRevision(c, Disk2(c, Some(h)), Later(c, Some(h)));
    hide IsRun, HandsOut, ValidCast, Spent, Disk2, World0, P.BoundaryOk, J.AbovePruned, Later, J.Current;
    ws, es := HandedOutTwice(c, Some(h), expiry);
    RunJournal(ws, es, expiry, 11);
  }

  lemma SpentRevision(c: Cast, disk: G.Disk, h: Option<History>)
    ensures var (d, j) := Spent(c, disk, h);
            d.file.Some? && j.revision == Some(d.version)
  {
  }

  lemma BoundaryCanBeOvertaken()
    ensures exists ws: seq<World>, es: seq<Event>, expiry: Id -> nat ::
              && IsRun(ws, es, expiry) && |es| == 11 && P.BoundaryOk(ws[0])
              && !J.AbovePruned(J.Current(ws[11].d.disk))
  {
    SampleValid();
    HeaderValid();
    var expiry := (id: Id) => T0 + 60_000;
    var ws, es := Overtaken(Sample(), SampleHeader(), expiry);
    hide IsRun, ValidCast, P.BoundaryOk, J.AbovePruned, J.Current;
    assert IsRun(ws, es, expiry) && P.BoundaryOk(ws[0]);
  }
}
