/** Every interleaving of any number of journal instances on one file. The
    instances' caches, torn tails and failed writes together refine one simple
    ledger; honest instances never refuse each other, and an older copy of the
    file is refused exactly when it lacks something the reader saw. */
module JournalRuns {
  import opened Text
  import opened Collections
  import opened JournalLine
  import opened LineFile
  import opened JournalFile
  import G = GrantJournal
  import JournalSize

  datatype System = System(disk: G.Disk, writers: map<nat, G.Journal>)

  datatype Event =
    | Genesis(historyId: string)
    | Open(w: nat)
    | Close(w: nat)
    | Record(w: nat, c: Consumption, nodeId: string, appendIo: G.AppendIo)
    | Prune(w: nat, t: nat, order: seq<Id>, rewriteIo: G.RewriteIo)
    | Bind(pin: G.Pin, order: seq<Id>, rewriteIo: G.RewriteIo)

  /** An event that can happen: the caller exists and its inputs are well typed. */
  ghost predicate Enabled(s: System, e: Event) {
    match e
    case Genesis(id) => IsNonce(id)
    case Open(w) => w !in s.writers
    case Close(w) => w in s.writers
    case Record(w, c, _, _) => w in s.writers
    case Prune(w, t, order, _) =>
      && w in s.writers
      && Enumerates(order, G.KeptIds(G.Synchronize(s.disk, s.writers[w]).1.state, t))
    case Bind(p, order, _) =>
      && G.ValidPin(p)
      && (G.Open(s.disk).1.Some? ==> Enumerates(order, G.Open(s.disk).1.value.state.consumed.Keys))
  }

  ghost function Step(s: System, e: Event): System
    requires Enabled(s, e)
  {
    match e
    case Genesis(id) => s.(disk := G.Genesis(s.disk, id))
    case Open(w) =>
      var (d, j) := G.Open(s.disk);
      System(d, if j.Some? then s.writers[w := j.value] else s.writers)
    case Close(w) => s.(writers := s.writers - {w})
    case Record(w, c, nodeId, io) =>
      var (d, j, _) := G.Record(s.disk, s.writers[w], c, nodeId, io);
      System(d, s.writers[w := j])
    case Prune(w, t, order, io) =>
      var (d, j, _) := G.Prune(s.disk, s.writers[w], t, order, io);
      System(d, s.writers[w := j])
    case Bind(p, order, io) =>
      s.(disk := G.Bind(s.disk, p, order, io).0)
  }

  ghost predicate Recorded(s: System, e: Event)
    requires Enabled(s, e)
  {
    e.Record? && G.Record(s.disk, s.writers[e.w], e.c, e.nodeId, e.appendIo).2
  }

  // ---- The simple ledger ---------------------------------------------------

  datatype Change = Same | Added(c: Consumption) | Removed(t: nat) | Rebound(p: G.Pin) | Founded(id: string)

  ghost function Apply(l: Loaded, x: Change): Loaded {
    match x
    case Same => l
    case Added(c) => With(l, c)
    case Removed(t) => G.Pruned(l, t)
    case Rebound(p) => G.Bound(l, p)
    case Founded(id) => l.(history := Some(History(id, "", "", "", 0, 0)))
  }

  ghost predicate Allowed(l: Loaded, x: Change) {
    match x
    case Same => true
    case Added(c) =>
      && ValidConsumption(c) && c.binding.Some? && c.id !in l.consumed
      && (l.history.Some? ==> c.binding.value.issuerEpoch == l.history.value.highestEpoch)
    case Removed(t) => true
    case Rebound(p) => l.history.Some? && G.MayBind(l, p)
    case Founded(id) => l == EMPTY
  }

  /** The state of the file; a missing file holds nothing. */
  function Current(d: G.Disk): Loaded {
    match d.file
    case None => EMPTY
    case Some(s) => match Load(s) case None => EMPTY case Some(l) => l
  }

  /** The file can be opened. */
  predicate DiskOk(d: G.Disk) { d.file.Some? ==> Load(d.file.value).Some? }

  /** `cur` is a later state of the history `prev` came from. */
  predicate Descends(prev: Loaded, cur: Loaded) {
    && G.Continues(prev, cur)
    && (prev.history.Some? ==> cur.history.value.highestEpoch >= prev.history.value.highestEpoch)
  }

  /** What one instance knows, relative to the file. */
  predicate Good(d: G.Disk, j: G.Journal) {
    && (j.revision.Some? ==> d.file.Some? && j.revision.value <= d.version)
    && (d.file.None? ==> j.state == EMPTY)
    && (d.file.Some? && j.revision == Some(d.version) ==>
          Boundary(d.file.value) && j.state == Current(d))
    && Descends(j.state, Current(d))
  }

  predicate Inv(s: System) {
    DiskOk(s.disk) && forall w | w in s.writers :: Good(s.disk, s.writers[w])
  }

  /** The instance has just read the file. */
  predicate Synced(d: G.Disk, j: G.Journal) {
    && j.state == Current(d)
    && (d.file.None? ==> j.revision.None?)
    && (d.file.Some? ==> Boundary(d.file.value) && j.revision == Some(d.version))
  }

  // ---- Ledger facts ----------------------------------------------------------

  lemma DescendsApply(prev: Loaded, cur: Loaded, x: Change)
    requires Descends(prev, cur) && Allowed(cur, x)
    requires x.Founded? ==> prev.history.None?
    ensures Descends(prev, Apply(cur, x))
  {
    var next := Apply(cur, x);
    if prev.history.Some? && x.Removed? {
      forall id | id in prev.consumed && prev.consumed[id] > next.history.value.prunedThrough
        ensures id in next.consumed && next.consumed[id] == prev.consumed[id]
      {
        assert id in cur.consumed;
        assert id !in cur.consumed.Keys - G.KeptIds(cur, x.t);
      }
    }
  }

  lemma ApplyConsistent(l: Loaded, x: Change)
    requires Consistent(l) && Allowed(l, x)
    requires x.Removed? ==> G.Printable(G.Pruned(l, x.t).history)
    requires x.Rebound? ==> G.ValidPin(x.p)
    requires x.Removed? || x.Rebound?
    ensures Consistent(Apply(l, x))
  {
    var m := Apply(l, x);
    forall id | id in m.consumed ensures ValidConsumption(Entry(m, id)) {
      assert Entry(m, id) == Entry(l, id);
    }
    if x.Removed? {
      assert m.consumed.Keys <= l.consumed.Keys;
      SubmapSize(m.consumed, l.consumed);
    }
  }

  // ---- Reading ---------------------------------------------------------------

  lemma KeptLines(s: string, line: string)
    requires line in Lines(Repair(s))
    ensures line in Lines(s)
  {
    var n := KeepLength(s);
    assert s == Repair(s) + s[n..];
    LinesAppend(Repair(s), s[n..]);
  }

  lemma HeaderSurvives(s: string)
    requires HISTORY_OPEN <= s && '\n' in s
    ensures HISTORY_OPEN <= Repair(s) && '\n' in Repair(s)
  {
    var i :| 0 <= i < |s| && s[i] == '\n';
    HistorySepsFacts();
    assert forall k | 0 <= k < |HISTORY_OPEN| :: s[k] == HISTORY_OPEN[k];
    assert i >= |HISTORY_OPEN|;
    assert KeepLength(s) > i;
    assert Repair(s)[..|HISTORY_OPEN|] == s[..|HISTORY_OPEN|];
    assert Repair(s)[i] == '\n';
  }

  lemma ReadableKept(s: string)
    requires Readable(s)
    ensures Readable(Repair(s))
  {
    if exists line | line in Lines(Repair(s)) :: HISTORY_OPEN <= line {
      var line :| line in Lines(Repair(s)) && HISTORY_OPEN <= line;
      KeptLines(s, line);
      HeaderSurvives(s);
    }
  }

  /** Cutting the torn tail does not change what the file says. */
  lemma ReloadSame(s: string)
    requires Load(s).Some?
    ensures Boundary(AfterRead(s)) && Load(AfterRead(s)) == Load(s)
  {
    ReadableKept(s);
    RepairedWhole(Repair(s));
  }

  lemma ReadDiskKeeps(d: G.Disk)
    requires DiskOk(d)
    ensures var a := G.ReadDisk(d);
            && DiskOk(a) && Current(a) == Current(d) && d.version <= a.version
            && (a.version == d.version ==> a == d) && (a.file.Some? <==> d.file.Some?)
            && (a.file.Some? ==> Boundary(a.file.value))
  {
    if d.file.Some? {
      ReloadSame(d.file.value);
    }
  }

  /** An instance that knows only earlier states of the file is never refused,
      and afterwards holds exactly what the file holds. */
  lemma SynchronizeSucceeds(d: G.Disk, j: G.Journal)
    requires DiskOk(d) && Good(d, j)
    ensures var (d1, j1, ok) := G.Synchronize(d, j);
            && ok && DiskOk(d1) && Current(d1) == Current(d) && Synced(d1, j1)
            && d.version <= d1.version && (d1.version == d.version ==> d1 == d)
            && (d1.file.Some? <==> d.file.Some?)
  {
    ReadDiskKeeps(d);
    if d.file.Some? && j.revision != Some(d.version) {
      var cur := Current(d);
      assert G.Merge(j.state, cur) == cur;
    }
  }

  lemma SyncedGood(d: G.Disk, j: G.Journal)
    requires Synced(d, j)
    ensures Good(d, j)
  {
  }

  // ---- Steps -----------------------------------------------------------------

  /** A disk moved from `d` to `e` by one ledger change. */
  ghost predicate Moved(d: G.Disk, e: G.Disk, x: Change) {
    && DiskOk(d) && DiskOk(e)
    && (d.file.Some? ==> e.file.Some?)
    && d.version <= e.version && (e.version == d.version ==> e == d)
    && Allowed(Current(d), x) && Current(e) == Apply(Current(d), x)
    && (x.Founded? ==> d.file.None?)
  }

  lemma OtherStaysGood(d: G.Disk, e: G.Disk, x: Change, j: G.Journal)
    requires Moved(d, e, x) && Good(d, j)
    ensures Good(e, j)
  {
    DescendsApply(j.state, Current(d), x);
    if e.file.None? {
      assert d.file.None?;
    }
  }

  lemma EmptyLoads()
    ensures Load("") == Some(EMPTY)
  {
    RepairedWhole("");
  }

  lemma AppendedDisk(d: G.Disk, l: Loaded, c: Consumption, n: nat)
    requires DiskOk(d) && Current(d) == l && Boundary(G.Text0(d.file))
    requires Appendable(G.Text0(d.file), l, c) && Allowed(l, Added(c)) && n <= |ConsumptionLine(c)|
    ensures var e := G.Disk(Some(G.Text0(d.file) + ConsumptionLine(c)[..n]), d.version + 1);
            && Moved(d, e, if n < |ConsumptionLine(c)| then Same else Added(c))
            && (n == |ConsumptionLine(c)| ==> Boundary(e.file.value))
  {
    hide Load, ConsumptionLine;
    EmptyLoads();
    CrashAtomicAppend(G.Text0(d.file), l, c, n);
    var e := G.Disk(Some(G.Text0(d.file) + ConsumptionLine(c)[..n]), d.version + 1);
    assert DiskOk(e) && Current(e) == if n < |ConsumptionLine(c)| then l else With(l, c);
  }

  lemma AppendStep(d: G.Disk, j: G.Journal, c: Consumption, nodeId: string, io: G.AppendIo)
    requires DiskOk(d) && Synced(d, j) && G.MayRecord(j.state, |G.Text0(d.file)|, c, nodeId)
    ensures var (e, k, ok) := G.Append(d, j, c, io);
            && (Moved(d, e, Same) || Moved(d, e, Added(c)))
            && (ok ==> Moved(d, e, Added(c)))
            && Good(e, k)
  {
    hide Load, ConsumptionLine;
    var line := ConsumptionLine(c);
    assert line[..|line|] == line;
    var n := if io.Torn? then Min(io.k, |line|) else |line|;
    AppendedDisk(d, j.state, c, n);
    SyncedGood(d, j);
    var (e, k, ok) := G.Append(d, j, c, io);
    if io.Torn? {
      OtherStaysGood(d, e, if n < |line| then Same else Added(c), j);
    }
  }

  lemma RewriteStep(d: G.Disk, j: G.Journal, x: Change, order: seq<Id>, io: G.RewriteIo)
    requires DiskOk(d) && Synced(d, j) && d.file.Some? && Consistent(j.state)
    requires Allowed(j.state, x) && (x.Removed? || (x.Rebound? && G.ValidPin(x.p)))
    requires Enumerates(order, Apply(j.state, x).consumed.Keys)
    requires forall id | id in order :: id in Apply(j.state, x).consumed
    ensures var (e, k, ok) := G.Rewrite(d, j, Apply(j.state, x), order, io);
            && (Moved(d, e, Same) || Moved(d, e, x))
            && (ok ==> Moved(d, e, x)) && Good(e, k)
  {
    hide Load, Rendered;
    var l := Apply(j.state, x);
    if !io.NotCommitted? && G.Printable(l.history) && |Rendered(l, order)| <= MAX_BYTES {
      ApplyConsistent(j.state, x);
      RenderedLoads(l, order);
      DescendsApply(j.state, j.state, x);
    }
  }

  lemma RecordStep(d: G.Disk, j: G.Journal, c: Consumption, nodeId: string, io: G.AppendIo)
    requires DiskOk(d) && Good(d, j)
    ensures var (e, k, ok) := G.Record(d, j, c, nodeId, io);
            && (Moved(d, e, Same) || Moved(d, e, Added(c)))
            && (ok ==> Moved(d, e, Added(c)))
            && Good(e, k)
  {
    SynchronizeSucceeds(d, j);
    var (d1, j1, _) := G.Synchronize(d, j);
    SyncedGood(d1, j1);
    if G.MayRecord(j1.state, |G.Text0(d1.file)|, c, nodeId) {
      AppendStep(d1, j1, c, nodeId, io);
    }
  }

  lemma PruneStep(d: G.Disk, j: G.Journal, t: nat, order: seq<Id>, io: G.RewriteIo)
    requires DiskOk(d) && Good(d, j)
    requires Enumerates(order, G.KeptIds(G.Synchronize(d, j).1.state, t))
    ensures var (e, k, ok) := G.Prune(d, j, t, order, io);
            && (Moved(d, e, Same) || Moved(d, e, Removed(t)))
            && Good(e, k)
  {
    SynchronizeSucceeds(d, j);
    var (d1, j1, _) := G.Synchronize(d, j);
    SyncedGood(d1, j1);
    if G.KeptIds(j1.state, t) != j1.state.consumed.Keys {
      assert d1.file.Some?;
      LoadConsistent(d1.file.value);
      assert G.Pruned(j1.state, t).consumed.Keys == G.KeptIds(j1.state, t);
      G.OrderWithin(order, G.Pruned(j1.state, t).consumed);
      RewriteStep(d1, j1, Removed(t), order, io);
    }
  }

  /** Some record is past its replay retention at `t`. */
  predicate RecordDue(l: Loaded, t: nat) { exists id :: id in l.consumed && !G.Retained(l.consumed[id], t) }

  /** A prune at `t` replaces the file: a record is due, the rename happens and
      the raised boundary can be printed. */
  ghost predicate PruneWrites(l: Loaded, t: nat, io: G.RewriteIo) {
    RecordDue(l, t) && !io.NotCommitted? && G.Printable(G.Pruned(l, t).history)
  }

  /** What a prune does, by the file before it and the outcome of its write: a
      compacted file never exceeds the size bound. */
  lemma PruneExactly(d: G.Disk, j: G.Journal, t: nat, order: seq<Id>, io: G.RewriteIo)
    requires DiskOk(d) && Good(d, j)
    requires Enumerates(order, G.KeptIds(G.Synchronize(d, j).1.state, t))
    ensures var (e, _, ok) := G.Prune(d, j, t, order, io);
            && (ok <==> (RecordDue(Current(d), t) ==> PruneWrites(Current(d), t, io) && io.Committed?))
            && Current(e) == if PruneWrites(Current(d), t, io) then G.Pruned(Current(d), t) else Current(d)
  {
    hide Load, Rendered;
    SynchronizeSucceeds(d, j);
    var (d1, j1, _) := G.Synchronize(d, j);
    var l := j1.state;
    assert G.KeptIds(l, t) != l.consumed.Keys <==> RecordDue(l, t);
    if RecordDue(l, t) {
      assert d1.file.Some? && Load(d1.file.value) == Some(l);
      LoadConsistent(d1.file.value);
      assert G.Pruned(l, t).consumed.Keys == G.KeptIds(l, t);
      G.OrderWithin(order, G.Pruned(l, t).consumed);
      JournalSize.PruneFits(d1.file.value, t, order);
      if PruneWrites(l, t, io) {
        ApplyConsistent(l, Removed(t));
        RenderedLoads(G.Pruned(l, t), order);
      }
    }
  }

  /** Afterwards the instance holds what the file said before or says now. */
  lemma RecordSees(d: G.Disk, j: G.Journal, c: Consumption, nodeId: string, io: G.AppendIo)
    requires DiskOk(d) && Good(d, j)
    ensures var (e, k, _) := G.Record(d, j, c, nodeId, io);
            k.state == Current(d) || k.state == Current(e)
  {
    hide Load, ConsumptionLine;
    SynchronizeSucceeds(d, j);
    var (d1, j1, _) := G.Synchronize(d, j);
    if G.MayRecord(j1.state, |G.Text0(d1.file)|, c, nodeId) {
      var line := ConsumptionLine(c);
      assert line[..|line|] == line;
      AppendedDisk(d1, j1.state, c, |line|);
    }
  }

  lemma PruneSees(d: G.Disk, j: G.Journal, t: nat, order: seq<Id>, io: G.RewriteIo)
    requires DiskOk(d) && Good(d, j)
    requires Enumerates(order, G.KeptIds(G.Synchronize(d, j).1.state, t))
    ensures var (e, k, _) := G.Prune(d, j, t, order, io);
            k.state == Current(d) || k.state == Current(e)
  {
    hide Load, Rendered;
    SynchronizeSucceeds(d, j);
    PruneExactly(d, j, t, order, io);
    var (d1, j1, _) := G.Synchronize(d, j);
    assert RecordDue(j1.state, t) <==> G.KeptIds(j1.state, t) != j1.state.consumed.Keys;
  }

  lemma OpenReads(d: G.Disk)
    requires DiskOk(d)
    ensures var (e, j) := G.Open(d);
            && Moved(d, e, Same) && j.Some? && Synced(e, j.value)
            && (e.file.Some? ==> Consistent(j.value.state))
  {
    ReadDiskKeeps(d);
    if d.file.Some? {
      LoadConsistent(d.file.value);
    }
  }

  lemma BindStep(d: G.Disk, p: G.Pin, order: seq<Id>, io: G.RewriteIo)
    requires DiskOk(d) && G.ValidPin(p)
    requires G.Open(d).1.Some? ==> Enumerates(order, G.Open(d).1.value.state.consumed.Keys)
    ensures var (e, ok) := G.Bind(d, p, order, io);
            && (Moved(d, e, Same) || Moved(d, e, Rebound(p)))
            && (ok && Current(d).history.Some? ==>
                  Current(e).history.Some? && Current(e).history.value.highestEpoch >= p.epoch)
  {
    OpenReads(d);
    var (d1, r) := G.Open(d);
    var j := r.value;
    if G.MayBind(j.state, p) && j.state.history.Some? && G.Bound(j.state, p) != j.state {
      G.OrderWithin(order, j.state.consumed);
      RewriteStep(d1, j, Rebound(p), order, io);
    }
  }

  lemma GenesisLoads(h: History)
    requires ValidHistory(h)
    ensures Load(HistoryLine(h)) == Some(EMPTY.(history := Some(h)))
  {
    HistoryBodyFacts(h);
    var l := EMPTY.(history := Some(h));
    assert Enumerates([], l.consumed.Keys);
    RenderedLoads(l, []);
  }

  lemma GenesisStep(d: G.Disk, id: string)
    requires DiskOk(d) && IsNonce(id)
    ensures var e := G.Genesis(d, id);
            Moved(d, e, Same) || Moved(d, e, Founded(id))
  {
    GenesisLoads(History(id, "", "", "", 0, 0));
  }

  /** Which change an event may cause. */
  predicate Caused(e: Event, x: Change) {
    match x
    case Same => true
    case Added(c) => e.Record? && c == e.c
    case Removed(t) => e.Prune? && t == e.t
    case Rebound(p) => e.Bind? && p == e.pin
    case Founded(id) => e.Genesis? && id == e.historyId
  }

  /** How one step changes the file. */
  ghost predicate StepChange(s: System, e: Event, x: Change)
    requires Enabled(s, e)
  {
    Moved(s.disk, Step(s, e).disk, x) && Caused(e, x)
  }

  /** Which change one step makes, and that the acting instance stays good. */
  lemma StepMoves(s: System, e: Event) returns (x: Change)
    requires Inv(s) && Enabled(s, e)
    ensures StepChange(s, e, x)
    ensures Recorded(s, e) ==> x.Added?
    ensures forall w | w in Step(s, e).writers :: w in s.writers || Good(Step(s, e).disk, Step(s, e).writers[w])
    ensures (e.Record? || e.Prune?) ==> Good(Step(s, e).disk, Step(s, e).writers[e.w])
  {
    x := Same;
    match e {
      case Genesis(id) =>
        GenesisStep(s.disk, id);
        if !Moved(s.disk, Step(s, e).disk, Same) { x := Founded(id); }
      case Open(w) =>
        OpenReads(s.disk);
        SyncedGood(G.Open(s.disk).0, G.Open(s.disk).1.value);
      case Close(w) =>
      case Record(w, c, nodeId, io) =>
        RecordStep(s.disk, s.writers[w], c, nodeId, io);
        if Recorded(s, e) || !Moved(s.disk, Step(s, e).disk, Same) { x := Added(c); }
      case Prune(w, t, order, io) =>
        PruneStep(s.disk, s.writers[w], t, order, io);
        if !Moved(s.disk, Step(s, e).disk, Same) { x := Removed(t); }
      case Bind(p, order, io) =>
        BindStep(s.disk, p, order, io);
        if !Moved(s.disk, Step(s, e).disk, Same) { x := Rebound(p); }
    }
  }

  /** Every step keeps the invariant and is one change of the ledger. */
  lemma StepKeepsInv(s: System, e: Event) returns (x: Change)
    requires Inv(s) && Enabled(s, e)
    ensures Inv(Step(s, e)) && StepChange(s, e, x)
    ensures Recorded(s, e) ==> x.Added?
  {
    x := StepMoves(s, e);
    forall w | w in Step(s, e).writers ensures Good(Step(s, e).disk, Step(s, e).writers[w]) {
      if w in s.writers && Step(s, e).writers[w] == s.writers[w] {
        OtherStaysGood(s.disk, Step(s, e).disk, x, s.writers[w]);
      }
    }
  }

  // ---- Runs --------------------------------------------------------------------

  ghost predicate IsRun(states: seq<System>, events: seq<Event>) {
    && |states| == |events| + 1
    && states[0].disk.file.None? && states[0].writers == map[]
    && forall i | 0 <= i < |events| :: Enabled(states[i], events[i]) && states[i + 1] == Step(states[i], events[i])
  }

  lemma {:induction false} RunInv(states: seq<System>, events: seq<Event>, i: nat)
    requires IsRun(states, events) && i < |states|
    ensures Inv(states[i])
  {
    if i > 0 {
      RunInv(states, events, i - 1);
      var _ := StepKeepsInv(states[i - 1], events[i - 1]);
    }
  }

  /** In every run the file can be reopened, and an instance whose revision
      equals the file's holds exactly what the file says. */
  lemma CacheCoherence(states: seq<System>, events: seq<Event>, i: nat, w: nat)
    requires IsRun(states, events) && i < |states| && w in states[i].writers
    requires states[i].disk.file.Some?
    ensures Load(states[i].disk.file.value).Some?
    ensures states[i].writers[w].revision == Some(states[i].disk.version) ==>
              states[i].writers[w].state == Load(states[i].disk.file.value).value
  {
    RunInv(states, events, i);
  }

  /** Honest writers and compactors never trip the refusal: synchronizing
      succeeds in every reachable state and yields the file's content. */
  lemma HonestNeverRefused(states: seq<System>, events: seq<Event>, i: nat, w: nat)
    requires IsRun(states, events) && i < |states| && w in states[i].writers
    ensures var (_, j, ok) := G.Synchronize(states[i].disk, states[i].writers[w]);
            ok && j.state == Current(states[i].disk)
  {
    RunInv(states, events, i);
    SynchronizeSucceeds(states[i].disk, states[i].writers[w]);
  }

  // ---- Runs of the ledger ------------------------------------------------------

  /** The ledger moves from `a` to `b` by a change this event may cause. */
  ghost predicate LedgerStep(a: Loaded, e: Event, recorded: bool, b: Loaded, x: Change) {
    Allowed(a, x) && b == Apply(a, x) && Caused(e, x) && (recorded ==> x.Added?)
  }

  lemma RunStep(states: seq<System>, events: seq<Event>, i: nat) returns (x: Change)
    requires IsRun(states, events) && i < |events|
    ensures LedgerStep(Current(states[i].disk), events[i], Recorded(states[i], events[i]),
                       Current(states[i + 1].disk), x)
  {
    RunInv(states, events, i);
    x := StepKeepsInv(states[i], events[i]);
  }

  ghost function Ledgers(states: seq<System>): seq<Loaded> {
    seq(|states|, i requires 0 <= i < |states| => Current(states[i].disk))
  }

  ghost function Records(states: seq<System>, events: seq<Event>): seq<bool>
    requires IsRun(states, events)
  {
    seq(|events|, i requires 0 <= i < |events| => Recorded(states[i], events[i]))
  }

  /** A run of the ledger caused by `events`. */
  ghost predicate IsLedgerRun(ls: seq<Loaded>, events: seq<Event>, recorded: seq<bool>, xs: seq<Change>) {
    && |ls| == |events| + 1 && |recorded| == |events| == |xs|
    && forall i | 0 <= i < |xs| :: LedgerStep(ls[i], events[i], recorded[i], ls[i + 1], xs[i])
  }

  lemma {:induction false} ChangesUpTo(states: seq<System>, events: seq<Event>, n: nat) returns (xs: seq<Change>)
    requires IsRun(states, events) && n <= |events|
    ensures |xs| == n
    ensures forall i | 0 <= i < n ::
              LedgerStep(Ledgers(states)[i], events[i], Records(states, events)[i], Ledgers(states)[i + 1], xs[i])
  {
    if n == 0 {
      return [];
    }
    xs := ChangesUpTo(states, events, n - 1);
    var x := RunStep(states, events, n - 1);
    xs := xs + [x];
  }

  /** Refinement: caches, torn tails and failed writes by any number of
      instances amount to one run of the ledger. */
  lemma RefinesLedger(states: seq<System>, events: seq<Event>) returns (xs: seq<Change>)
    requires IsRun(states, events)
    ensures IsLedgerRun(Ledgers(states), events, Records(states, events), xs)
  {
    xs := ChangesUpTo(states, events, |events|);
  }

  lemma ChangeKeeps(l: Loaded, x: Change, id: Id)
    requires Allowed(l, x) && id in l.consumed
    ensures (id in Apply(l, x).consumed && Apply(l, x).consumed[id] == l.consumed[id])
            || (x.Removed? && l.consumed[id] + G.RETENTION_MS <= x.t)
  {
  }

  /** A prune that may remove a record of this expiry. */
  predicate PrunesPast(e: Event, expiresAt: nat) { e.Prune? && expiresAt + G.RETENTION_MS <= e.t }

  lemma {:induction false} LedgerKeeps(
    ls: seq<Loaded>, events: seq<Event>, rs: seq<bool>, xs: seq<Change>, i: nat, j: nat, id: Id)
    requires IsLedgerRun(ls, events, rs, xs) && i <= j < |ls| && id in ls[i].consumed
    ensures (id in ls[j].consumed && ls[j].consumed[id] == ls[i].consumed[id])
            || exists m | i <= m < j :: PrunesPast(events[m], ls[i].consumed[id])
  {
    if i < j {
      LedgerKeeps(ls, events, rs, xs, i, j - 1, id);
      if id in ls[j - 1].consumed {
        assert LedgerStep(ls[j - 1], events[j - 1], rs[j - 1], ls[j], xs[j - 1]);
        ChangeKeeps(ls[j - 1], xs[j - 1], id);
      }
    }
  }

  lemma LedgerNoDouble(ls: seq<Loaded>, events: seq<Event>, rs: seq<bool>, xs: seq<Change>, i: nat, j: nat)
    requires IsLedgerRun(ls, events, rs, xs) && i < j < |events| && rs[i] && rs[j]
    requires events[i].Record? && events[j].Record? && events[i].c.id == events[j].c.id
    ensures exists m | i < m < j :: PrunesPast(events[m], events[i].c.expiresAt)
  {
    assert LedgerStep(ls[i], events[i], rs[i], ls[i + 1], xs[i]);
    assert LedgerStep(ls[j], events[j], rs[j], ls[j + 1], xs[j]);
    LedgerKeeps(ls, events, rs, xs, i + 1, j, events[i].c.id);
  }

  lemma {:induction false} LedgerDescends(
    ls: seq<Loaded>, events: seq<Event>, rs: seq<bool>, xs: seq<Change>, i: nat, j: nat)
    requires IsLedgerRun(ls, events, rs, xs) && i <= j < |ls|
    ensures Descends(ls[i], ls[j])
  {
    if i < j {
      LedgerDescends(ls, events, rs, xs, i, j - 1);
      assert LedgerStep(ls[j - 1], events[j - 1], rs[j - 1], ls[j], xs[j - 1]);
      DescendsApply(ls[i], ls[j - 1], xs[j - 1]);
    }
  }

  /** A recorded intent leaves the file only through a prune at least the replay
      retention after its expiry. */
  lemma NoIntentLost(states: seq<System>, events: seq<Event>, i: nat, j: nat, id: Id)
    requires IsRun(states, events) && i <= j < |states|
    requires id in Ledgers(states)[i].consumed
    ensures var before, now := Ledgers(states)[i].consumed, Ledgers(states)[j].consumed;
            (id in now && now[id] == before[id]) || exists m | i <= m < j :: PrunesPast(events[m], before[id])
  {
    var xs := RefinesLedger(states, events);
    LedgerKeeps(Ledgers(states), events, Records(states, events), xs, i, j, id);
  }

  /** No grant is recorded twice without a prune past its expiry plus the replay
      retention in between. */
  lemma NoDoubleRecord(states: seq<System>, events: seq<Event>, i: nat, j: nat)
    requires IsRun(states, events) && i < j < |events|
    requires Recorded(states[i], events[i]) && Recorded(states[j], events[j])
    requires events[i].c.id == events[j].c.id
    ensures exists m | i < m < j :: PrunesPast(events[m], events[i].c.expiresAt)
  {
    var xs := RefinesLedger(states, events);
    LedgerNoDouble(Ledgers(states), events, Records(states, events), xs, i, j);
  }

  // ---- Rollback refusal --------------------------------------------------------

  /** Every retained record expires after everything already pruned. */
  predicate AbovePruned(l: Loaded) {
    l.history.Some? ==> forall id | id in l.consumed :: l.consumed[id] > l.history.value.prunedThrough
  }

  /** Pruning always keeps this, whatever the time; an added record keeps it
      exactly when it expires after the pruned boundary. */
  lemma AbovePrunedApply(l: Loaded, x: Change)
    requires AbovePruned(l) && Allowed(l, x)
    ensures AbovePruned(Apply(l, x))
      <==> (x.Added? && l.history.Some? ==> x.c.expiresAt > l.history.value.prunedThrough)
  {
    var m := Apply(l, x);
    if x.Added? {
      assert m.consumed[x.c.id] == x.c.expiresAt;
    } else if x.Removed? && l.history.Some? {
      var gone := l.consumed.Keys - G.KeptIds(l, x.t);
      forall id | id in m.consumed ensures m.consumed[id] > m.history.value.prunedThrough {
        assert forall other | other in gone :: l.consumed[other] < l.consumed[id];
      }
    }
  }

  lemma ContinuesExact(seen: Loaded, copy: Loaded)
    requires seen.history.Some? && copy.history.Some? && AbovePruned(seen) && Descends(copy, seen)
    ensures G.Continues(seen, copy)
      <==> && copy.history.value.prunedThrough == seen.history.value.prunedThrough
           && (seen.history.value.IsBound() ==> copy.history.value.SameScope(seen.history.value))
           && forall id | id in seen.consumed :: id in copy.consumed && copy.consumed[id] == seen.consumed[id]
  {
  }

  /** An older copy `i` of the file, put back under a reader that last read the
      state `m`, is accepted exactly when it has the same pruned boundary and
      scope and lacks nothing the reader saw. */
  lemma RollbackRefusalExact(states: seq<System>, events: seq<Event>, i: nat, m: nat, j: G.Journal, version: nat)
    requires IsRun(states, events) && i <= m < |states|
    requires states[i].disk.file.Some? && j.revision != Some(version)
    requires j.state == Ledgers(states)[m] && j.state.history.Some? && AbovePruned(j.state)
    requires Ledgers(states)[i].history.Some?
    ensures var copy, seen := Ledgers(states)[i], j.state;
            G.Synchronize(G.Disk(states[i].disk.file, version), j).2
            <==> && copy.history.value.prunedThrough == seen.history.value.prunedThrough
                 && (seen.history.value.IsBound() ==> copy.history.value.SameScope(seen.history.value))
                 && forall id | id in seen.consumed ::
                      id in copy.consumed && copy.consumed[id] == seen.consumed[id]
  {
    RunInv(states, events, i);
    var xs := RefinesLedger(states, events);
    LedgerDescends(Ledgers(states), events, Records(states, events), xs, i, m);
    ContinuesExact(j.state, Ledgers(states)[i]);
    assert Load(states[i].disk.file.value) == Some(Ledgers(states)[i]);
  }
}
