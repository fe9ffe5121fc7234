/** The revocation journal: a tombstone takes effect in memory first and is
    then appended. Reopening the file gives the memory's answer for every
    grant outside `unpersisted`, as long as appends start on a record
    boundary; the one way to leave that boundary is characterised exactly. */
module RevocationJournal {
  import opened Text
  import opened Collections
  import opened JournalLine
  import opened LineFile
  import opened JournalFile

  /** What the file says: the longest retention and the first outcome. */
  datatype Tombstones = Tombstones(retained: map<Id, nat>, outcomes: map<Id, Observation>)

  const NONE := Tombstones(map[], map[])

  /** Memory: the same maps plus the ids whose append has not succeeded. */
  datatype Revocations = Revocations(marks: Tombstones, unpersisted: set<Id>)

  // ---- Reading -----------------------------------------------------------

  function Mark(m: Tombstones, t: Tombstone): Tombstones {
    var until := if t.id in m.retained then Max(m.retained[t.id], t.retainUntil) else t.retainUntil;
    Tombstones(m.retained[t.id := until],
               if t.observation.Some? && t.id !in m.outcomes then m.outcomes[t.id := t.observation.value]
               else m.outcomes)
  }

  function MarkLine(m: Tombstones, index: nat, line: string): Option<Tombstones> {
    match ParseTombstone(line)
    case None => None
    case Some(t) => Some(Mark(m, t))
  }

  /** The complete lines of the file, read in order. */
  function ReadMarks(s: string): Option<Tombstones> { Fold(MarkLine, NONE, 0, Lines(Repair(s))) }

  /** `RevocationJournal::open`, the acknowledgement file aside. */
  function Reopen(s: string): Option<Tombstones> {
    match ReadMarks(s)
    case Some(m) => if |s| <= MAX_BYTES && |m.retained| <= MAX_RECORDS then Some(m) else None
    case None => None
  }

  /** Opening cuts a torn tail in the file itself. */
  function AfterOpen(s: string): string { if |s| <= MAX_BYTES then Repair(s) else s }

  // ---- Writing -----------------------------------------------------------

  /** `Torn(k)`: the write failed and cutting it back left `k` bytes.
      `DirectoryUnsynced` fails after the line is durable. */
  datatype AppendIo = Unopened | Torn(k: nat) | DirectoryUnsynced | Durable

  function TombstoneLine(t: Tombstone): string { TombstoneBody(t) + "\n" }

  function ObservationOf(m: Tombstones, id: Id): Option<Observation> {
    if id in m.outcomes then Some(m.outcomes[id]) else None
  }

  function TombstoneOf(m: Tombstones, id: Id): Tombstone
    requires id in m.retained
  {
    Tombstone(id, m.retained[id], ObservationOf(m, id))
  }

  /** The checks made before the file is written. */
  predicate CanAppend(s: string, r: Revocations, id: Id) {
    && id in r.marks.retained && |r.marks.retained| <= MAX_RECORDS
    && |s| + |TombstoneLine(TombstoneOf(r.marks, id))| <= MAX_BYTES
  }

  /** How many bytes of a line of `size` bytes are left in the file. */
  function Written(io: AppendIo, size: nat): nat {
    match io
    case Unopened => 0
    case Torn(k) => Min(k, size)
    case _ => size
  }

  function Append(s: string, r: Revocations, id: Id, io: AppendIo): (string, bool) {
    if !CanAppend(s, r, id) then (s, false) else
    var line := TombstoneLine(TombstoneOf(r.marks, id));
    (s + line[..Written(io, |line|)], io.Durable?)
  }

  predicate RaisesRetention(r: Revocations, id: Id, until: nat) {
    id !in r.marks.retained || r.marks.retained[id] < until
  }

  /** Memory after the tombstone is in force and before it is written. */
  function InForce(r: Revocations, t: Tombstone): Revocations {
    var outcomes := if t.id !in r.marks.retained && t.observation.Some?
                    then r.marks.outcomes[t.id := t.observation.value] else r.marks.outcomes;
    var retained := if RaisesRetention(r, t.id, t.retainUntil)
                    then r.marks.retained[t.id := t.retainUntil] else r.marks.retained;
    Revocations(Tombstones(retained, outcomes), r.unpersisted + {t.id})
  }

  function Record(s: string, r: Revocations, t: Tombstone, io: AppendIo): (string, Revocations, bool) {
    if !RaisesRetention(r, t.id, t.retainUntil) && t.id !in r.unpersisted then (s, r, true) else
    var memory := InForce(r, t);
    var (file, ok) := Append(s, memory, t.id, io);
    (file, if ok then memory.(unpersisted := memory.unpersisted - {t.id}) else memory, ok)
  }

  /** Retry the appends in `order`, stopping at the first failure. */
  function Retry(s: string, r: Revocations, order: seq<Id>, ios: seq<AppendIo>): (string, Revocations, bool)
    requires |ios| == |order|
    decreases |order|
  {
    if order == [] then (s, r, true) else
    var (file, ok) := Append(s, r, order[0], ios[0]);
    if ok then Retry(file, r.(unpersisted := r.unpersisted - {order[0]}), order[1..], ios[1..])
    else (file, r, false)
  }

  function KeptMarks(m: Tombstones, t: nat): Tombstones {
    var retained := map id | id in m.retained && m.retained[id] > t :: m.retained[id];
    Tombstones(retained, map id | id in m.outcomes && id in retained :: m.outcomes[id])
  }

  function RenderedMarks(m: Tombstones, order: seq<Id>): string
    requires forall id | id in order :: id in m.retained
  {
    if order == [] then ""
    else RenderedMarks(m, order[..|order| - 1]) + TombstoneLine(TombstoneOf(m, order[|order| - 1]))
  }

  /** Compaction: `Committed(false)` fails after the rename, before memory. */
  datatype RewriteIo = NotCommitted | Committed(synced: bool)

  ghost function Prune(s: string, r: Revocations, t: nat, order: seq<Id>, io: RewriteIo)
    : (string, Revocations, bool)
    requires Enumerates(order, KeptMarks(r.marks, t).retained.Keys)
  {
    var kept := KeptMarks(r.marks, t);
    if kept.retained.Keys == r.marks.retained.Keys then (s, r, true)
    else if io.NotCommitted? then (s, r, false)
    else
      MarksWithin(order, kept);
      var file := RenderedMarks(kept, order);
      if io.synced then (file, Revocations(kept, {}), true) else (file, r, false)
  }

  lemma MarksWithin(order: seq<Id>, m: Tombstones)
    requires Enumerates(order, m.retained.Keys)
    ensures forall id | id in order :: id in m.retained
  {
    forall id | id in order ensures id in m.retained {
      assert id in Elements(order);
    }
  }

  // ---- Agreement between file and memory -----------------------------------

  /** Signed revocations carry only valid marks. */
  predicate ValidMarks(m: Tombstones) {
    m.outcomes.Keys <= m.retained.Keys && forall id | id in m.retained :: ValidTombstone(TombstoneOf(m, id))
  }

  /** The file never says more than memory, and outside `unpersisted` it says
      the same. */
  predicate Agrees(file: Tombstones, r: Revocations) {
    && ValidMarks(r.marks)
    && file.outcomes.Keys <= file.retained.Keys <= r.marks.retained.Keys
    && (forall id | id in file.retained ::
          file.retained[id] <= r.marks.retained[id] && ObservationOf(file, id) == ObservationOf(r.marks, id))
    && (forall id | id in r.marks.retained && id !in r.unpersisted ::
          id in file.retained && file.retained[id] == r.marks.retained[id])
  }

  /** Reading the file now succeeds and agrees with memory. */
  predicate InStep(s: string, r: Revocations) {
    ReadMarks(s).Some? && Agrees(ReadMarks(s).value, r)
  }

  /** Outside `unpersisted`, reopening gives exactly memory's retention and
      first outcome. */
  lemma ReopenAgrees(s: string, r: Revocations, id: Id)
    requires InStep(s, r) && id !in r.unpersisted && Reopen(s).Some?
    ensures var m := Reopen(s).value;
            && (id in m.retained <==> id in r.marks.retained)
            && (id in m.retained ==>
                  m.retained[id] == r.marks.retained[id] && ObservationOf(m, id) == ObservationOf(r.marks, id))
  {
  }

  lemma TombstoneShapeFree(c: char)
    requires c == '\n' || c == '{'
    ensures c == '\n' ==> Free(TOMBSTONE_SHAPE.open, c)
    ensures Free(TOMBSTONE_SHAPE.open[1..], c) && Free(TOMBSTONE_SHAPE.numberSep, c)
    ensures Free(TOMBSTONE_SHAPE.wordSep, c) && Free(TOMBSTONE_SHAPE.lastSep, c)
  {
  }

  /** A printed tombstone opens exactly one brace, at its start. */
  lemma TombstoneBodyFacts(t: Tombstone)
    requires ValidTombstone(t)
    ensures TombstoneBody(t) != "" && Free(TombstoneBody(t), '\n')
    ensures TombstoneBody(t)[0] == '{' && Free(TombstoneBody(t)[1..], '{')
  {
    var extra := None;
    if t.observation.Some? {
      OutcomeNameExact("", t.observation.value.outcome);
      extra := Some((OutcomeName(t.observation.value.outcome), t.observation.value.observedAt));
    }
    var raw := Raw(t.id, t.retainUntil, extra);
    TombstoneShapeFree('\n');
    TombstoneShapeFree('{');
    RawFree(TOMBSTONE_SHAPE, raw, '\n');
    var sh := TOMBSTONE_SHAPE;
    var tail := Shape(sh.open[1..], sh.numberSep, sh.wordSep, sh.lastSep);
    RawFree(tail, raw, '{');
    assert ExtraText(tail, extra) == ExtraText(sh, extra);
    assert TombstoneBody(t)[1..] == RawBody(tail, raw);
  }

  /** Whatever can be read is valid. */
  lemma ReadMarksValid(s: string)
    requires ReadMarks(s).Some?
    ensures ValidMarks(ReadMarks(s).value)
  {
    forall m: Tombstones, i: nat, line | ValidMarks(m) && MarkLine(m, i, line).Some?
      ensures ValidMarks(MarkLine(m, i, line).value)
    {
      MarkLineValid(m, i, line);
    }
    FoldKeeps(MarkLine, (m: Tombstones, i: nat) => ValidMarks(m), NONE, 0, Lines(Repair(s)));
  }

  lemma MarkLineValid(m: Tombstones, i: nat, line: string)
    requires ValidMarks(m) && MarkLine(m, i, line).Some?
    ensures ValidMarks(MarkLine(m, i, line).value)
  {
    var t := ParseTombstone(line).value;
    TombstoneLineExact(line, t);
    var m' := Mark(m, t);
    forall id | id in m'.retained ensures ValidTombstone(TombstoneOf(m', id)) {
      if id in m.retained {
        assert ValidTombstone(TombstoneOf(m, id));
      }
    }
  }

  /** A freshly opened journal is in step with its repaired file. */
  lemma OpenInStep(s: string)
    requires Reopen(s).Some?
    ensures Boundary(AfterOpen(s)) && InStep(AfterOpen(s), Revocations(Reopen(s).value, {}))
  {
    ReadMarksValid(s);
    RepairedWhole(Repair(s));
  }

  lemma MarkPrinted(m: Tombstones, index: nat, t: Tombstone)
    requires ValidTombstone(t)
    ensures MarkLine(m, index, TombstoneBody(t)) == Some(Mark(m, t))
  {
    TombstoneLineExact(TombstoneBody(t), t);
  }

  lemma LineMarked(s: string, t: Tombstone)
    requires Boundary(s) && ReadMarks(s).Some? && ValidTombstone(t)
    ensures Boundary(s + TombstoneLine(t))
    ensures ReadMarks(s + TombstoneLine(t)) == Some(Mark(ReadMarks(s).value, t))
  {
    TombstoneBodyFacts(t);
    LinesOfOne(TombstoneBody(t));
    LinesAppend(s, TombstoneLine(t));
    RepairedWhole(s);
    RepairedWhole(s + TombstoneLine(t));
    FoldOne(MarkLine, NONE, 0, Lines(s), TombstoneBody(t));
    MarkPrinted(ReadMarks(s).value, |Lines(s)|, t);
  }

  lemma MarkAgrees(file: Tombstones, r: Revocations, id: Id)
    requires Agrees(file, r) && id in r.marks.retained
    ensures Agrees(Mark(file, TombstoneOf(r.marks, id)), r.(unpersisted := r.unpersisted - {id}))
    ensures Agrees(Mark(file, TombstoneOf(r.marks, id)), r)
  {
  }

  /** The write fails and its cut leaves part of the line. */
  predicate LeavesResidue(s: string, r: Revocations, id: Id, io: AppendIo) {
    CanAppend(s, r, id) && io.Torn? && 0 < io.k < |TombstoneLine(TombstoneOf(r.marks, id))|
  }

  /** The whole line is written behind a residue that was never cut. */
  predicate Merges(s: string, r: Revocations, id: Id, io: AppendIo) {
    && CanAppend(s, r, id) && !Boundary(s)
    && var size := |TombstoneLine(TombstoneOf(r.marks, id))|; Written(io, size) == size
  }

  lemma LineEnds(s: string, t: Tombstone, n: nat)
    requires ValidTombstone(t) && n <= |TombstoneLine(t)|
    ensures n == |TombstoneLine(t)| ==> Boundary(s + TombstoneLine(t)[..n])
    ensures 0 < n < |TombstoneLine(t)| ==> !Boundary(s + TombstoneLine(t)[..n])
    ensures n < |TombstoneLine(t)| ==> ReadMarks(s + TombstoneLine(t)[..n]) == ReadMarks(s)
  {
    TombstoneBodyFacts(t);
    if n < |TombstoneLine(t)| {
      assert TombstoneLine(t)[..n] == TombstoneBody(t)[..n];
      KeepTornTail(s, TombstoneLine(t)[..n]);
      if 0 < n {
        assert (s + TombstoneLine(t)[..n])[|s| + n - 1] == TombstoneBody(t)[n - 1];
      }
    }
  }

  /** What an append does to a file that agrees with memory: it keeps agreeing
      exactly when the line does not merge with a residue, and it stays on a
      record boundary exactly when it leaves no residue. */
  lemma AppendExactly(s: string, r: Revocations, id: Id, io: AppendIo)
    requires InStep(s, r)
    ensures var (file, ok) := Append(s, r, id, io);
            && (InStep(file, r) <==> !Merges(s, r, id, io))
            && (Merges(s, r, id, io) ==> ReadMarks(file).None? && Boundary(file))
            && (ok && !Merges(s, r, id, io) ==> InStep(file, r.(unpersisted := r.unpersisted - {id})))
            && (ok ==> Boundary(file))
            && (Boundary(s) ==> (Boundary(file) <==> !LeavesResidue(s, r, id, io)))
  {
    if CanAppend(s, r, id) {
      var t := TombstoneOf(r.marks, id);
      var line := TombstoneLine(t);
      var n := Written(io, |line|);
      LineEnds(s, t, n);
      if n == |line| {
        assert line[..n] == line;
        if Boundary(s) {
          LineMarked(s, t);
          MarkAgrees(ReadMarks(s).value, r, id);
        } else {
          MergedFileRefused(s, t);
        }
      } else if n == 0 {
        assert s + line[..n] == s;
      }
    }
  }

  /** A tombstone is in force, and recorded as pending, before any write. */
  lemma InForceAgrees(s: string, r: Revocations, t: Tombstone)
    requires InStep(s, r) && ValidTombstone(t)
    ensures InStep(s, InForce(r, t)) && t.id in InForce(r, t).unpersisted
    ensures t.id in InForce(r, t).marks.retained && InForce(r, t).marks.retained[t.id] >= t.retainUntil
  {
    var m := InForce(r, t);
    forall id | id in m.marks.retained ensures ValidTombstone(TombstoneOf(m.marks, id)) {
      if id in r.marks.retained {
        assert ValidTombstone(TombstoneOf(r.marks, id));
      }
    }
  }

  /** The tombstone is in force in memory whichever way the write ends, and no
      other tombstone is lost or added. */
  lemma RecordInForce(s: string, r: Revocations, t: Tombstone, io: AppendIo)
    ensures var m := Record(s, r, t, io).1.marks.retained;
            && t.id in m && m[t.id] >= t.retainUntil && m.Keys == r.marks.retained.Keys + {t.id}
            && forall id | id in r.marks.retained :: m[id] >= r.marks.retained[id]
  {
    var _ := Append(s, InForce(r, t), t.id, io).1;
  }

  /** Recording writes: the tombstone is new, longer or still unwritten. */
  predicate RecordWrites(r: Revocations, t: Tombstone) {
    RaisesRetention(r, t.id, t.retainUntil) || t.id in r.unpersisted
  }

  /** Recording keeps file and memory in step exactly when its line does not merge
      with a residue, and on a record boundary exactly when it leaves none; the
      tombstone is in force in any case. */
  lemma RecordExactly(s: string, r: Revocations, t: Tombstone, io: AppendIo)
    requires InStep(s, r) && ValidTombstone(t)
    ensures var (file, m, ok) := Record(s, r, t, io);
            && (InStep(file, m) <==> !(RecordWrites(r, t) && Merges(s, InForce(r, t), t.id, io)))
            && (Boundary(s) ==>
                  (Boundary(file) <==> !(RecordWrites(r, t) && LeavesResidue(s, InForce(r, t), t.id, io))))
            && t.id in m.marks.retained && m.marks.retained[t.id] >= t.retainUntil
            && (ok ==> t.id !in m.unpersisted)
  {
    if RecordWrites(r, t) {
      InForceAgrees(s, r, t);
      AppendExactly(s, InForce(r, t), t.id, io);
    }
  }

  lemma {:induction false} RetryKeepsMarks(s: string, r: Revocations, order: seq<Id>, ios: seq<AppendIo>)
    requires |ios| == |order|
    ensures Retry(s, r, order, ios).1.marks == r.marks
    decreases |order|
  {
    if order != [] {
      var (file, ok) := Append(s, r, order[0], ios[0]);
      if ok {
        RetryKeepsMarks(file, r.(unpersisted := r.unpersisted - {order[0]}), order[1..], ios[1..]);
      }
    }
  }

  /** Some retried append, all before it succeeding, leaves a residue. */
  predicate RetryTears(s: string, r: Revocations, order: seq<Id>, ios: seq<AppendIo>)
    requires |ios| == |order|
    decreases |order|
  {
    order != []
    && if CanAppend(s, r, order[0]) && ios[0].Durable? then
         RetryTears(s + TombstoneLine(TombstoneOf(r.marks, order[0])),
                    r.(unpersisted := r.unpersisted - {order[0]}), order[1..], ios[1..])
       else LeavesResidue(s, r, order[0], ios[0])
  }

  /** Only the first retried line can merge: after it the file ends in a line
      end. */
  predicate RetryMerges(s: string, r: Revocations, order: seq<Id>, ios: seq<AppendIo>)
    requires |ios| == |order|
  {
    order != [] && Merges(s, r, order[0], ios[0])
  }

  lemma UnreadableStays(s: string, t: Tombstone, n: nat)
    requires Boundary(s) && ReadMarks(s).None? && ValidTombstone(t) && n <= |TombstoneLine(t)|
    ensures ReadMarks(s + TombstoneLine(t)[..n]).None?
  {
    LineEnds(s, t, n);
    if n == |TombstoneLine(t)| {
      assert TombstoneLine(t)[..n] == TombstoneLine(t);
      TombstoneBodyFacts(t);
      LinesAppend(s, TombstoneLine(t));
      RepairedWhole(s);
      RepairedWhole(s + TombstoneLine(t));
      FoldAppend(MarkLine, NONE, 0, Lines(s), Lines(TombstoneLine(t)));
    }
  }

  lemma {:induction false} RetryUnreadable(s: string, r: Revocations, order: seq<Id>, ios: seq<AppendIo>)
    requires Boundary(s) && ReadMarks(s).None? && ValidMarks(r.marks) && |ios| == |order|
    ensures ReadMarks(Retry(s, r, order, ios).0).None?
    decreases |order|
  {
    if order != [] && CanAppend(s, r, order[0]) {
      var t := TombstoneOf(r.marks, order[0]);
      var n := Written(ios[0], |TombstoneLine(t)|);
      UnreadableStays(s, t, n);
      LineEnds(s, t, n);
      if ios[0].Durable? {
        RetryUnreadable(s + TombstoneLine(t)[..n], r.(unpersisted := r.unpersisted - {order[0]}), order[1..], ios[1..]);
      }
    }
  }

  /** Retrying keeps file and memory in step exactly when its first line does not
      merge with a residue, and on a record boundary exactly when no append
      leaves one; success leaves nothing of `order` unwritten. */
  lemma {:induction false} RetryExactly(s: string, r: Revocations, order: seq<Id>, ios: seq<AppendIo>)
    requires InStep(s, r) && |ios| == |order|
    ensures var (file, m, ok) := Retry(s, r, order, ios);
            && m.marks == r.marks && (InStep(file, m) <==> !RetryMerges(s, r, order, ios))
            && (Boundary(s) ==> (Boundary(file) <==> !RetryTears(s, r, order, ios)))
            && (ok ==> m.unpersisted == r.unpersisted - Elements(order))
    decreases |order|
  {
    RetryKeepsMarks(s, r, order, ios);
    RetryClears(s, r, order, ios);
    if order != [] {
      AppendExactly(s, r, order[0], ios[0]);
      var (file, ok) := Append(s, r, order[0], ios[0]);
      var rest := r.(unpersisted := r.unpersisted - {order[0]});
      if ok {
        var line := TombstoneLine(TombstoneOf(r.marks, order[0]));
        assert line[..|line|] == line;
        if Merges(s, r, order[0], ios[0]) {
          RetryUnreadable(file, rest, order[1..], ios[1..]);
        } else {
          RetryExactly(file, rest, order[1..], ios[1..]);
        }
      }
    }
  }

  lemma {:induction false} RetryClears(s: string, r: Revocations, order: seq<Id>, ios: seq<AppendIo>)
    requires |ios| == |order|
    ensures Retry(s, r, order, ios).2 ==> Retry(s, r, order, ios).1.unpersisted == r.unpersisted - Elements(order)
    decreases |order|
  {
    if order != [] {
      var (file, ok) := Append(s, r, order[0], ios[0]);
      assert Elements(order) == {order[0]} + Elements(order[1..]);
      if ok {
        RetryClears(file, r.(unpersisted := r.unpersisted - {order[0]}), order[1..], ios[1..]);
      }
    }
  }

  // ---- Compaction ------------------------------------------------------------

  ghost function RestrictedMarks(m: Tombstones, ids: set<Id>): Tombstones {
    Tombstones(map id | id in m.retained && id in ids :: m.retained[id],
               map id | id in m.outcomes && id in ids :: m.outcomes[id])
  }

  lemma RestrictedMarksStep(m: Tombstones, ids: set<Id>, id: Id)
    requires ValidMarks(m) && id in m.retained && id !in ids
    ensures Mark(RestrictedMarks(m, ids), TombstoneOf(m, id)) == RestrictedMarks(m, ids + {id})
  {
    var a, b := Mark(RestrictedMarks(m, ids), TombstoneOf(m, id)), RestrictedMarks(m, ids + {id});
    assert a.retained == b.retained;
    assert a.outcomes == b.outcomes;
  }

  lemma {:induction false} RenderedMarksRead(m: Tombstones, order: seq<Id>)
    requires ValidMarks(m) && Distinct(order) && forall id | id in order :: id in m.retained
    ensures Boundary(RenderedMarks(m, order))
    ensures ReadMarks(RenderedMarks(m, order)) == Some(RestrictedMarks(m, Elements(order)))
    decreases |order|
  {
    if order == [] {
      RepairedWhole("");
      assert RestrictedMarks(m, {}) == NONE;
    } else {
      var n := |order| - 1;
      ElementsStep(order);
      RenderedMarksRead(m, order[..n]);
      RestrictedMarksStep(m, Elements(order[..n]), order[n]);
      LineMarked(RenderedMarks(m, order[..n]), TombstoneOf(m, order[n]));
    }
  }

  lemma KeptMarksValid(m: Tombstones, t: nat)
    requires ValidMarks(m)
    ensures ValidMarks(KeptMarks(m, t))
  {
    var kept := KeptMarks(m, t);
    forall id | id in kept.retained ensures ValidTombstone(TombstoneOf(kept, id)) {
      assert TombstoneOf(kept, id) == TombstoneOf(m, id);
    }
  }

  lemma RestrictedToAll(m: Tombstones)
    requires m.outcomes.Keys <= m.retained.Keys
    ensures RestrictedMarks(m, m.retained.Keys) == m
  {
    assert RestrictedMarks(m, m.retained.Keys).retained == m.retained;
    assert RestrictedMarks(m, m.retained.Keys).outcomes == m.outcomes;
  }

  lemma AllMarksRead(m: Tombstones, order: seq<Id>)
    requires ValidMarks(m) && Enumerates(order, m.retained.Keys)
    requires forall id | id in order :: id in m.retained
    ensures Boundary(RenderedMarks(m, order)) && ReadMarks(RenderedMarks(m, order)) == Some(m)
  {
    RenderedMarksRead(m, order);
    RestrictedToAll(m);
  }

  /** The compacted file says exactly what memory keeps, including tombstones
      whose earlier append failed; a failed compaction leaves memory alone. */
  lemma PruneInStep(s: string, r: Revocations, t: nat, order: seq<Id>, io: RewriteIo)
    requires InStep(s, r)
    requires Enumerates(order, KeptMarks(r.marks, t).retained.Keys)
    ensures var (file, m, ok) := Prune(s, r, t, order, io);
            && (Boundary(s) ==> Boundary(file))
            && (ok ==> InStep(file, m))
            && (ok && m != r ==> m == Revocations(KeptMarks(r.marks, t), {}) && ReadMarks(file) == Some(m.marks))
            && (!ok ==> m == r)
  {
    MarksWithin(order, KeptMarks(r.marks, t));
    KeptMarksValid(r.marks, t);
    AllMarksRead(KeptMarks(r.marks, t), order);
  }

  /** A compaction that reached the disk but was reported as failed. */
  predicate HalfCompacted(r: Revocations, t: nat, io: RewriteIo) {
    io == Committed(false) && exists id :: id in r.marks.retained && r.marks.retained[id] <= t && id !in r.unpersisted
  }

  /** Compaction keeps file and memory in step if and only if it does not fail
      after removing a tombstone that had been written. */
  lemma PruneInStepExactly(s: string, r: Revocations, t: nat, order: seq<Id>, io: RewriteIo)
    requires InStep(s, r)
    requires Enumerates(order, KeptMarks(r.marks, t).retained.Keys)
    ensures var (file, m, _) := Prune(s, r, t, order, io);
            (Boundary(s) ==> Boundary(file)) && (InStep(file, m) <==> !HalfCompacted(r, t, io))
  {
    var kept := KeptMarks(r.marks, t);
    PruneInStep(s, r, t, order, io);
    if io == Committed(false) && kept.retained.Keys != r.marks.retained.Keys {
      MarksWithin(order, kept);
      KeptMarksValid(r.marks, t);
      AllMarksRead(kept, order);
      KeptAgreesExactly(r, t);
    } else if io == Committed(false) {
      assert forall id | id in r.marks.retained :: id in kept.retained;
    }
  }

  lemma KeptAgreesExactly(r: Revocations, t: nat)
    requires ValidMarks(r.marks)
    ensures Agrees(KeptMarks(r.marks, t), r)
      <==> forall id | id in r.marks.retained && id !in r.unpersisted :: r.marks.retained[id] > t
  {
  }

  // ---- The boundary is needed ------------------------------------------------

  /** Text before a printed tombstone makes the line unreadable. */
  lemma MergedLineRefused(torn: string, t: Tombstone)
    requires torn != "" && ValidTombstone(t)
    ensures ParseTombstone(torn + TombstoneBody(t)).None?
  {
    var line := torn + TombstoneBody(t);
    TombstoneBodyFacts(t);
    assert line[1..][|torn| - 1] == '{';
    if ParseTombstone(line).Some? {
      TombstoneLineExact(line, ParseTombstone(line).value);
      TombstoneBodyFacts(ParseTombstone(line).value);
      assert false;
    }
  }

  /** The last line of a file whose unterminated tail was appended to. */
  lemma MergedLines(s: string, body: string)
    requires !Boundary(s) && Free(body, '\n')
    ensures Lines(Repair(s + (body + "\n"))) == Lines(Repair(s)) + [s[KeepLength(s)..] + body]
    ensures s[KeepLength(s)..] != ""
  {
    var kept, torn := Repair(s), s[KeepLength(s)..];
    var file := s + (body + "\n");
    assert file == kept + ((torn + body) + "\n");
    RepairedWhole(file);
    LinesOfOne(torn + body);
    LinesAppend(kept, (torn + body) + "\n");
  }

  lemma MergedFileRefused(s: string, t: Tombstone)
    requires !Boundary(s) && ValidTombstone(t)
    ensures ReadMarks(s + TombstoneLine(t)).None?
  {
    var torn := s[KeepLength(s)..];
    TombstoneBodyFacts(t);
    MergedLines(s, TombstoneBody(t));
    MergedLineRefused(torn, t);
    var lines := Lines(Repair(s + TombstoneLine(t)));
    assert lines[|Lines(Repair(s))|] == torn + TombstoneBody(t);
    assert forall m: Tombstones, i: nat :: MarkLine(m, i, torn + TombstoneBody(t)).None?;
    FoldRefuses(MarkLine, NONE, 0, lines, |Lines(Repair(s))|);
  }

  /** Appending after a torn residue that was never cut merges two lines. The
      file then reads back if and only if it ended on a record boundary. */
  lemma BoundaryNeededExactly(s: string, t: Tombstone)
    requires ReadMarks(s).Some? && ValidTombstone(t)
    ensures ReadMarks(s + TombstoneLine(t)).Some? <==> Boundary(s)
  {
    if Boundary(s) {
      LineMarked(s, t);
    } else {
      MergedFileRefused(s, t);
    }
  }
}
