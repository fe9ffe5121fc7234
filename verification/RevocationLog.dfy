/** The revocation journal as the broker holds it. Each method is proved to be
    one step of `RevocationJournal`. */
module RevocationLog {
  import opened Text
  import opened JournalLine
  import opened LineFile
  import opened JournalFile
  import R = RevocationJournal
  import C = ConsumptionJournal

  class Log {
    var file: string
    var retained: map<Id, nat>
    var outcomes: map<Id, Observation>
    var unpersisted: set<Id>

    function View(): R.Revocations
      reads this
    {
      R.Revocations(R.Tombstones(retained, outcomes), unpersisted)
    }

    constructor (file: string, marks: R.Tombstones)
      ensures this.file == file && View() == R.Revocations(marks, {})
    {
      this.file, retained, outcomes, unpersisted := file, marks.retained, marks.outcomes, {};
    }

    /** Write one tombstone line from memory; a failed write is cut back as far
        as the file system allows. */
    method Append(id: Id, io: R.AppendIo) returns (ok: bool)
      modifies `file
      ensures (file, ok) == R.Append(old(file), old(View()), id, io)
    {
      if id !in retained || |retained| > MAX_RECORDS {
        return false;
      }
      var observation := if id in outcomes then Some(outcomes[id]) else None;
      var line := R.TombstoneLine(Tombstone(id, retained[id], observation));
      if |file| + |line| > MAX_BYTES {
        return false;
      }
      file := file + line[..R.Written(io, |line|)];
      ok := io.Durable?;
    }

    /** In force in memory first, then made durable. */
    method Record(t: Tombstone, io: R.AppendIo) returns (ok: bool)
      modifies this
      ensures (file, View(), ok) == R.Record(old(file), old(View()), t, io)
    {
      var raises := t.id !in retained || retained[t.id] < t.retainUntil;
      if !raises && t.id !in unpersisted {
        return true;
      }
      if t.id !in retained && t.observation.Some? {
        outcomes := outcomes[t.id := t.observation.value];
      }
      if raises {
        retained := retained[t.id := t.retainUntil];
      }
      unpersisted := unpersisted + {t.id};
      assert View() == R.InForce(old(View()), t);
      ok := Append(t.id, io);
      if ok {
        unpersisted := unpersisted - {t.id};
      }
    }

    /** Append again, in some order, every tombstone whose write failed, stopping
        at the first failure. */
    method RetryUnpersisted(order: seq<Id>, ios: seq<R.AppendIo>) returns (ok: bool)
      requires |ios| == |order| && Enumerates(order, unpersisted)
      modifies `file, `unpersisted
      ensures (file, View(), ok) == R.Retry(old(file), old(View()), order, ios)
    {
      var i := 0;
      while i < |order|
        invariant 0 <= i <= |order|
        invariant R.Retry(file, View(), order[i..], ios[i..]) == R.Retry(old(file), old(View()), order, ios)
      {
        var written := Append(order[i], ios[i]);
        assert order[i..][1..] == order[i + 1..] && ios[i..][1..] == ios[i + 1..];
        if !written {
          return false;
        }
        unpersisted := unpersisted - {order[i]};
        i := i + 1;
      }
      ok := true;
    }

    /** Drop tombstones whose retention passed and rewrite the file. */
    method Prune(t: nat, io: R.RewriteIo) returns (ok: bool, ghost order: seq<Id>)
      modifies this
      ensures Enumerates(order, R.KeptMarks(old(View().marks), t).retained.Keys)
      ensures (file, View(), ok) == R.Prune(old(file), old(View()), t, order, io)
    {
      var kept := R.KeptMarks(R.Tombstones(retained, outcomes), t);
      if kept.retained.Keys == retained.Keys {
        order := C.AnyOrder(kept.retained.Keys);
        return true, order;
      }
      var text;
      text, order := Render(kept);
      if io.NotCommitted? {
        return false, order;
      }
      file := text;
      if !io.synced {
        return false, order;
      }
      retained, outcomes, unpersisted := kept.retained, kept.outcomes, {};
      ok := true;
    }
  }

  /** Write every retained tombstone. */
  method Render(m: R.Tombstones) returns (text: string, ghost order: seq<Id>)
    ensures Enumerates(order, m.retained.Keys) && (forall id | id in order :: id in m.retained)
    ensures text == R.RenderedMarks(m, order)
  {
    text, order := "", [];
    var left := m.retained.Keys;
    while left != {}
      invariant left <= m.retained.Keys && Enumerates(order, m.retained.Keys - left)
      invariant forall id | id in order :: id in m.retained
      invariant text == R.RenderedMarks(m, order)
      decreases left
    {
      var id :| id in left;
      left := left - {id};
      text := text + R.TombstoneLine(R.TombstoneOf(m, id));
      assert id !in Elements(order);
      ghost var longer := order + [id];
      assert Elements(longer) == Elements(order) + {id};
      assert longer[..|longer| - 1] == order;
      order := longer;
    }
  }

  /** `RevocationJournal::open`: cut a torn tail, then read every line. */
  method Open(file: string) returns (log: Option<Log>, kept: string)
    ensures kept == R.AfterOpen(file)
    ensures log.Some? <==> R.Reopen(file).Some?
    ensures log.Some? ==> fresh(log.value) && log.value.file == kept
                          && log.value.View() == R.Revocations(R.Reopen(file).value, {})
  {
    if |file| > MAX_BYTES {
      return None, file;
    }
    kept := CutTornTail(file);
    RepairedBoundary(file);
    var marks := ScanLines(R.MarkLine, R.NONE, kept);
    if marks.None? || |marks.value.retained| > MAX_RECORDS {
      return None, kept;
    }
    var opened0 := new Log(kept, marks.value);
    log := Some(opened0);
  }

  lemma RepairedBoundary(s: string)
    ensures Boundary(Repair(s))
  {
  }
}
