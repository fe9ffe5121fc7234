/** Two ways in which the revocation file stops saying what memory says. A
    revocation is torn and its residue not cut; the retry is reported as a
    success, yet the file can no longer be read and the broker does not start
    again. And a compaction that was done is reported as failed. */
module TornRevocation {
  import opened Text
  import opened JournalLine
  import opened LineFile
  import opened JournalFile
  import R = RevocationJournal
  import opened GrantVerifier
  import opened VerifierRuns
  import opened SignedTime

  const MARK := Tombstone("g", 1, Some(Observation(NotReceived, 1)))

  function Line(): string { R.TombstoneLine(MARK) }

  lemma LineFacts()
    ensures ValidTombstone(MARK) && 5 < |Line()| <= 10_000
  {
    assert IsIdChar('g');
    assert |TOMBSTONE_SHAPE.open| >= 5 && |TOMBSTONE_SHAPE.open| <= 100 && |TOMBSTONE_SHAPE.numberSep| <= 100;
    assert |TOMBSTONE_SHAPE.wordSep| <= 100 && |TOMBSTONE_SHAPE.lastSep| <= 100;
    assert |OutcomeName(NotReceived)| <= 100;
    assert |Digits(1)| == 1;
  }

  /** Memory with the one tombstone. */
  function Marked(unpersisted: set<Id>): R.Revocations {
    R.Revocations(R.Tombstones(map["g" := 1], map["g" := Observation(NotReceived, 1)]), unpersisted)
  }

  function MarkedWorld(file: string, unpersisted: set<Id>): World {
    NOTHING.(d := NOTHING.d.(revoked := file), process := Some(Idle(None).(revocations := Marked(unpersisted))),
             revoked := {"g"})
  }

  const REVOKE := Revokes("g", 1, 1, R.Torn(5))
  const RETRY := Retries(["g"], [R.Durable])

  lemma MarkOf(unpersisted: set<Id>)
    ensures R.TombstoneOf(Marked(unpersisted).marks, "g") == MARK
  {
  }

  /** Five bytes of the line stay in the file. */
  lemma RecordTorn()
    ensures R.Record("", R.Revocations(R.NONE, {}), MARK, R.Torn(5)) == (Line()[..5], Marked({"g"}), false)
  {
    LineFacts();
    MarkOf({"g"});
    hide R.TombstoneLine;
    var r := R.Revocations(R.NONE, {});
    var m := R.InForce(r, MARK);
    assert m.marks.retained == map["g" := 1];
    assert m.marks.outcomes == map["g" := Observation(NotReceived, 1)];
    assert m.unpersisted == {"g"};
    assert m == Marked({"g"});
    assert R.CanAppend("", m, "g");
    assert "" + Line()[..5] == Line()[..5];
  }

  lemma RevokeTorn()
    ensures Enabled(IdleWorld(None, None), REVOKE)
    ensures Step(IdleWorld(None, None), REVOKE) == MarkedWorld(Line()[..5], {"g"})
  {
    RecordTorn();
    hide R.Record, Line, Marked;
    var w := IdleWorld(None, None);
    assert RevocationOutcome(w.process.value, "g") == NotReceived;
    assert w.revoked + {"g"} == {"g"};
  }

  /** The retry appends the whole line and succeeds. */
  lemma RetryMerged()
    ensures R.Retry(Line()[..5], Marked({"g"}), ["g"], [R.Durable]) == (Line()[..5] + Line(), Marked({}), true)
  {
    LineFacts();
    MarkOf({"g"});
    hide R.TombstoneLine;
    assert {"g"} - {"g"} == {};
    assert R.CanAppend(Line()[..5], Marked({"g"}), "g");
    assert Line()[..|Line()|] == Line();
    assert R.Append(Line()[..5], Marked({"g"}), "g", R.Durable) == (Line()[..5] + Line(), true);
    assert ["g"][1..] == [];
  }

  lemma RetryMerges()
    ensures Enabled(MarkedWorld(Line()[..5], {"g"}), RETRY)
    ensures Step(MarkedWorld(Line()[..5], {"g"}), RETRY) == MarkedWorld(Line()[..5] + Line(), {})
  {
    RetryMerged();
    hide R.Retry, Line;
    assert Elements(["g"]) == {"g"};
  }

  lemma Unreadable()
    ensures R.ReadMarks(Line()[..5] + Line()).None?
  {
    LineFacts();
    R.LineEnds("", MARK, 5);
    assert "" + Line()[..5] == Line()[..5];
    R.MergedFileRefused(Line()[..5], MARK);
  }

  /** Nothing is pending, yet the file cannot be read any more, and after a crash
      the verifier does not start. */
  lemma RevocationFileCanBeLost()
    ensures exists ws: seq<World>, es: seq<Event>, expiry: Id -> nat ::
              && IsRun(ws, es, expiry) && |es| == 5 && |ws| == 6
              && ws[3].process.Some? && ws[3].process.value.revocations == Marked({})
              && R.ReadMarks(ws[3].d.revoked).None?
              && es[4].Starts? && ws[5].process.None?
  {
    var expiry := (id: Id) => 0;
    EmptyRun(expiry);
    StartIdle();
    RevokeTorn();
    RetryMerges();
    Unreadable();
    var file := Line()[..5] + Line();
    StartRefused(file);
    hide Step, Enabled, IsRun, Line, R.ReadMarks, Marked;
    var ws1, es1 := OneMore([NOTHING], [], expiry, 0, NOTHING, Starts(0, 0));
    var ws2, es2 := OneMore(ws1, es1, expiry, 1, IdleWorld(None, None), REVOKE);
    var ws3, es3 := OneMore(ws2, es2, expiry, 2, MarkedWorld(Line()[..5], {"g"}), RETRY);
    var ws4, es4 := OneMore(ws3, es3, expiry, 3, MarkedWorld(file, {}), Crashes);
    var ws5, es5 := OneMore(ws4, es4, expiry, 4, Down(file), Starts(0, 0));
    assert ws5[3] == ws3[3];
    assert IsRun(ws5, es5, expiry) && |es5| == 5 && |ws5| == 6 && ws5[5].process.None?;
  }

  /** After the crash. */
  function Down(file: string): World { NOTHING.(d := NOTHING.d.(revoked := file)) }

  lemma StartRefused(file: string)
    requires R.ReadMarks(file).None?
    ensures Enabled(MarkedWorld(file, {}), Crashes) && Step(MarkedWorld(file, {}), Crashes) == Down(file)
    ensures Enabled(Down(file), Starts(0, 0)) && Step(Down(file), Starts(0, 0)).process.None?
  {
    hide R.ReadMarks;
  }

  lemma OneMarkRead()
    ensures R.ReadMarks(Line()) == Some(Marked({}).marks) && Boundary(Line())
  {
    LineFacts();
    R.RenderedMarksRead(R.NONE, []);
    assert R.RestrictedMarks(R.NONE, {}) == R.NONE;
    R.LineMarked("", MARK);
    hide R.ReadMarks, R.TombstoneLine;
    assert "" + Line() == Line();
    assert R.Mark(R.NONE, MARK) == Marked({}).marks;
  }

  lemma OneMarkInStep()
    ensures R.InStep(Line(), Marked({})) && Boundary(Line())
  {
    LineFacts();
    OneMarkRead();
    MarkOf({});
    hide Line, R.ReadMarks;
  }

  /** A compaction that removed the one written tombstone and was reported as
      failed: memory holds a tombstone the file no longer has. */
  lemma CompactionCanDisagree()
    ensures exists s: string, r: R.Revocations, t: nat ::
              && R.InStep(s, r) && Boundary(s) && Enumerates([], R.KeptMarks(r.marks, t).retained.Keys)
              && var (file, m, ok) := R.Prune(s, r, t, [], R.Committed(false));
                 !ok && !R.InStep(file, m) && "g" in m.marks.retained && "g" !in m.unpersisted
  {
    OneMarkInStep();
    hide Line, R.InStep, R.RenderedMarks;
    var r, t: nat := Marked({}), 1;
    assert "g" in r.marks.retained && r.marks.retained["g"] <= t;
    assert R.KeptMarks(r.marks, t).retained.Keys == {} == Elements([]);
    assert R.HalfCompacted(r, t, R.Committed(false));
    R.PruneInStepExactly(Line(), r, t, [], R.Committed(false));
    assert R.InStep(Line(), r) && Boundary(Line());
  }
}
