/** The consumption journal shared by several writers under one lock: opening,
    re-reading after another writer, recording an intent, pruning and binding
    to a controller pin. Every locked call is one atomic step over the file;
    each input/output failure the code can meet is a parameter of the step. */
module GrantJournal {
  import opened Text
  import opened JournalLine
  import opened JournalFile

  const RETENTION_MS: nat := 24 * 60 * 60 * 1_000

  /** The file and its revision; every write gives a new revision. */
  datatype Disk = Disk(file: Option<string>, version: nat)

  /** One instance: the state it last read and the revision it read it at. */
  datatype Journal = Journal(state: Loaded, revision: Option<nat>)

  datatype Pin = Pin(tenantId: string, nodeId: string, keyId: string, epoch: nat)

  // ---- Reading -------------------------------------------------------------

  /** Reading cuts a torn tail in the file itself. */
  function ReadDisk(d: Disk): Disk {
    match d.file
    case None => d
    case Some(s) =>
      var kept := AfterRead(s);
      if kept == s then d else Disk(Some(kept), d.version + 1)
  }

  function Open(d: Disk): (Disk, Option<Journal>) {
    match d.file
    case None => (d, Some(Journal(EMPTY, None)))
    case Some(s) =>
      var after := ReadDisk(d);
      match Load(s)
      case None => (after, None)
      case Some(l) => (after, Some(Journal(l, Some(after.version))))
  }

  /** The re-read file is refused when it is another history, an older copy, or
      lacks a consumption this instance saw and no compaction explains. */
  predicate Continues(prev: Loaded, cur: Loaded) {
    prev.history.Some? ==>
      && cur.history.Some?
      && cur.history.value.historyId == prev.history.value.historyId
      && cur.history.value.prunedThrough >= prev.history.value.prunedThrough
      && (prev.history.value.IsBound() ==> cur.history.value.SameScope(prev.history.value))
      && forall id | id in prev.consumed && prev.consumed[id] > cur.history.value.prunedThrough ::
           id in cur.consumed && cur.consumed[id] == prev.consumed[id]
  }

  function Merge(prev: Loaded, cur: Loaded): Loaded {
    if prev.history.None? then cur
    else cur.(history := RaiseEpoch(cur.history, prev.history.value.highestEpoch))
  }

  function Synchronize(d: Disk, j: Journal): (Disk, Journal, bool) {
    match d.file
    case None => (d, j, j.revision.None?)
    case Some(s) =>
      if j.revision == Some(d.version) then (d, j, true) else
      var after := ReadDisk(d);
      match Load(s)
      case None => (after, j, false)
      case Some(cur) =>
        if Continues(j.state, cur) then (after, Journal(Merge(j.state, cur), Some(after.version)), true)
        else (after, j, false)
  }

  // ---- Recording -----------------------------------------------------------

  /** How an append ends. `Torn(k)` is a failed write or flush whose cut left
      `k` bytes of the line; the last two fail after the line is durable. */
  datatype AppendIo = Unopened | Torn(k: nat) | DirectoryUnsynced | MetadataLost | Durable

  function Text0(f: Option<string>): string { match f case None => "" case Some(s) => s }

  /** The checks made after synchronizing and before writing. */
  predicate MayRecord(l: Loaded, size: nat, c: Consumption, nodeId: string) {
    && c.binding.Some? && ValidConsumption(c)
    && (l.history.Some? ==>
          && l.history.value.IsBound() && l.history.value.nodeId == nodeId
          && c.binding.value.issuerEpoch == l.history.value.highestEpoch)
    && c.id !in l.consumed && |l.consumed| < MAX_RECORDS
    && size + |ConsumptionLine(c)| <= MAX_BYTES
  }

  function Append(d: Disk, j: Journal, c: Consumption, io: AppendIo): (Disk, Journal, bool) {
    var base, line := Text0(d.file), ConsumptionLine(c);
    var whole := Disk(Some(base + line), d.version + 1);
    match io
    case Unopened => (d, j, false)
    case Torn(k) => (Disk(Some(base + line[..Min(k, |line|)]), d.version + 1), j, false)
    case DirectoryUnsynced => (whole, j.(state := With(j.state, c)), false)
    case MetadataLost => (whole, j.(state := With(j.state, c)), false)
    case Durable => (whole, Journal(With(j.state, c), Some(whole.version)), true)
  }

  function Record(d: Disk, j: Journal, c: Consumption, nodeId: string, io: AppendIo): (Disk, Journal, bool) {
    var (d1, j1, ok) := Synchronize(d, j);
    if !ok || !MayRecord(j1.state, |Text0(d1.file)|, c, nodeId) then (d1, j1, false)
    else Append(d1, j1, c, io)
  }

  // ---- Pruning -------------------------------------------------------------

  /** How a compaction ends: before the rename, after the rename but before the
      directory flush, after memory was updated, or completely. */
  datatype RewriteIo = NotCommitted | CommittedUnsynced | CommittedUnread | Committed

  predicate Retained(expiresAt: nat, t: nat) {
    expiresAt + RETENTION_MS > U64_MAX || expiresAt + RETENTION_MS > t
  }

  function KeptIds(l: Loaded, t: nat): set<Id> {
    set id | id in l.consumed && Retained(l.consumed[id], t)
  }

  /** The largest value of `m` over `ids`, zero when there is none. */
  ghost function Largest(m: map<Id, nat>, ids: set<Id>): (n: nat)
    requires ids <= m.Keys
    ensures forall id | id in ids :: m[id] <= n
    ensures n == 0 || exists id :: id in ids && m[id] == n
  {
    if ids == {} then 0 else
    var id :| id in ids;
    var rest := Largest(m, ids - {id});
    assert forall x | x in ids :: x == id || x in ids - {id};
    if m[id] < rest then rest else m[id]
  }

  /** What a prune at signed time `t` keeps. */
  ghost function Pruned(l: Loaded, t: nat): Loaded {
    var kept := KeptIds(l, t);
    var boundary := Largest(l.consumed, l.consumed.Keys - kept);
    Loaded(map id | id in l.consumed && id in kept :: l.consumed[id],
           map id | id in l.bindings && id in kept :: l.bindings[id],
           match l.history
           case None => None
           case Some(h) => Some(h.(prunedThrough := Max(h.prunedThrough, boundary))))
  }

  predicate Printable(h: Option<History>) { h.Some? ==> ValidHistory(h.value) }

  /** Replace the file by `l` written in `order`. */
  ghost function Rewrite(d: Disk, j: Journal, l: Loaded, order: seq<Id>, io: RewriteIo): (Disk, Journal, bool)
    requires forall id | id in order :: id in l.consumed
  {
    if io.NotCommitted? || !Printable(l.history) || |Rendered(l, order)| > MAX_BYTES then (d, j, false) else
    var d1 := Disk(Some(Rendered(l, order)), d.version + 1);
    match io
    case CommittedUnsynced => (d1, j, false)
    case CommittedUnread => (d1, j.(state := l), false)
    case _ => (d1, Journal(l, Some(d1.version)), true)
  }

  ghost function Prune(d: Disk, j: Journal, t: nat, order: seq<Id>, io: RewriteIo): (Disk, Journal, bool) {
    var (d1, j1, ok) := Synchronize(d, j);
    if !ok then (d1, j1, false)
    else if KeptIds(j1.state, t) == j1.state.consumed.Keys then (d1, j1, true)
    else if Enumerates(order, KeptIds(j1.state, t)) then
      assert Pruned(j1.state, t).consumed.Keys == KeptIds(j1.state, t);
      OrderWithin(order, Pruned(j1.state, t).consumed);
      Rewrite(d1, j1, Pruned(j1.state, t), order, io)
    else (d1, j1, false)
  }

  lemma OrderWithin(order: seq<Id>, m: map<Id, nat>)
    requires Enumerates(order, m.Keys)
    ensures forall id | id in order :: id in m
  {
    forall id | id in order ensures id in m {
      assert id in Elements(order);
    }
  }

  // ---- Binding to a pin ------------------------------------------------------

  predicate ValidPin(p: Pin) {
    && IsOpaqueId(p.tenantId) && IsOpaqueId(p.nodeId) && IsOpaqueId(p.keyId)
    && 1 <= p.epoch <= MAX_SAFE_INTEGER
  }

  predicate MayBind(l: Loaded, p: Pin) {
    l.history.Some? ==>
      if l.history.value.IsBound() then
        && l.history.value.tenantId == p.tenantId && l.history.value.nodeId == p.nodeId
        && l.history.value.issuerKeyId == p.keyId
      else l.consumed == map[]
  }

  function Bound(l: Loaded, p: Pin): Loaded {
    match l.history
    case None => l
    case Some(h) =>
      l.(history := Some(h.(tenantId := p.tenantId, nodeId := p.nodeId, issuerKeyId := p.keyId,
                            highestEpoch := Max(h.highestEpoch, p.epoch))))
  }

  /** `history::bind`: a fresh read, then a rewrite when the header changes. */
  ghost function Bind(d: Disk, p: Pin, order: seq<Id>, io: RewriteIo): (Disk, bool) {
    var (d1, reader) := Open(d);
    match reader
    case None => (d1, false)
    case Some(j) =>
      if !MayBind(j.state, p) then (d1, false)
      else if j.state.history.None? || Bound(j.state, p) == j.state then (d1, true)
      else if Enumerates(order, j.state.consumed.Keys) then
        OrderWithin(order, j.state.consumed);
        var (d2, _, ok) := Rewrite(d1, j, Bound(j.state, p), order, io);
        (d2, ok)
      else (d1, false)
  }

  /** `history::initialize`: publish an unbound header, only over no file. */
  function Genesis(d: Disk, historyId: string): Disk
    requires IsNonce(historyId)
  {
    if d.file.Some? then d
    else Disk(Some(HistoryLine(History(historyId, "", "", "", 0, 0))), d.version + 1)
  }
}
